/** The desktop's replica of a device framebuffer, rebuilt from keyframes and rectangle deltas. */
module FramebufferStream {
  import opened Options
  import opened PixelConversion
  import opened RowOffsets
  import opened Surfaces

  const U32_MAX := 0xFFFF_FFFF
  const U64_MAX := 0xFFFF_FFFF_FFFF_FFFF
  const MAX_FRAME_SURFACE_BYTES := 16 * 1024 * 1024
  const FLAG_LZ4_SIZE_PREPENDED := 1

  type u16 = x: nat | x <= 0xFFFF
  type u32 = x: nat | x <= U32_MAX
  type u64 = x: nat | x <= U64_MAX

  datatype Kind = Hello | Keyframe | RectDelta | Heartbeat | End | Error

  datatype Geometry = Geometry(width: u32, height: u32, stridePixels: u32)

  datatype Rect = Rect(x: u32, y: u32, width: u32, height: u32)

  datatype Header = Header(kind: Kind, flags: u16, sequence: u64, geometry: Geometry, rect: Rect, rawBytes: u32)

  /** What the LZ4 library makes of a payload: its size prefix and the decoded block. */
  datatype Payload = Payload(sizePrefix: Option<nat>, decoded: Option<seq<bv8>>)

  /** The machine a frame arrives at: `surfaceMemory` is the largest byte buffer it can zero. */
  datatype Host = Host(machine: Machine, surfaceMemory: nat)

  /** The application runs where `usize` has 64 bits. */
  ghost predicate Desktop(host: Host) {
    host.machine.usizeMax == U64_MAX
  }

  function FullRect(g: Geometry): Rect {
    Rect(0, 0, g.width, g.height)
  }

  function CheckedMul(a: nat, b: nat): Option<u32> {
    if a * b <= U32_MAX then Some(a * b) else None
  }

  function CheckedAdd(a: nat, b: nat): Option<u32> {
    if a + b <= U32_MAX then Some(a + b) else None
  }

  /** The byte size of `width` by `height` pixels, where it fits 32 bits. */
  function CheckedBytes(width: nat, height: nat): Option<u32> {
    match CheckedMul(width, height)
    case None => None
    case Some(pixels) => CheckedMul(pixels, 2)
  }

  predicate ValidateShape(h: Header) {
    var g, r := h.geometry, h.rect;
    && g.width != 0 && g.height != 0 && g.stridePixels >= g.width
    && r.width != 0 && r.height != 0
    && (match CheckedAdd(r.x, r.width) case None => false case Some(right) => right <= g.width)
    && (match CheckedAdd(r.y, r.height) case None => false case Some(bottom) => bottom <= g.height)
    && (h.kind == Keyframe ==> r == FullRect(g))
    && (match (CheckedBytes(r.width, r.height), CheckedBytes(g.stridePixels, g.height))
        case (Some(expectedRaw), Some(surface)) => surface <= MAX_FRAME_SURFACE_BYTES && h.rawBytes == expectedRaw
        case _ => false)
  }

  // ---------------------------------------------------------------- surfaces and rectangles

  ghost predicate GeometryOk(g: Geometry) {
    && 0 < g.width <= g.stridePixels && 0 < g.height
    && Offset(g.height, 2 * g.stridePixels) <= MAX_FRAME_SURFACE_BYTES
  }

  ghost function SurfaceBytes(g: Geometry): nat {
    Offset(g.height, 2 * g.stridePixels)
  }

  ghost predicate RectInside(r: Rect, g: Geometry) {
    0 < r.width && 0 < r.height && r.x + r.width <= g.width && r.y + r.height <= g.height
  }

  ghost predicate WellShaped(h: Header) {
    && GeometryOk(h.geometry) && RectInside(h.rect, h.geometry)
    && h.rawBytes == Offset(h.rect.height, 2 * h.rect.width)
    && (h.kind == Keyframe ==> h.rect == FullRect(h.geometry))
  }

  /** The checked arithmetic refuses exactly the headers that do not describe a non-empty
      rectangle of a surface that fits: no overflow hides a bad one or refuses a good one. */
  lemma {:induction false} ValidShape(h: Header)
    ensures ValidateShape(h) <==> WellShaped(h)
    ensures ValidateShape(h) ==> h.geometry.stridePixels * h.geometry.height * 2 == SurfaceBytes(h.geometry)
  {
    var g, r := h.geometry, h.rect;
    ByteProduct(r.width, r.height);
    ByteProduct(g.stridePixels, g.height);
    if WellShaped(h) {
      OffsetGrows(r.height, g.height, 2 * r.width);
      NarrowerIsSmaller(g.height, 2 * r.width, 2 * g.stridePixels);
    }
  }

  lemma {:induction false} ByteProduct(width: nat, height: nat)
    ensures 0 <= width * height && width * height * 2 == Offset(height, 2 * width)
  {
    OffsetIsProduct(height, 2 * width);
  }

  /** A rectangle in bytes. */
  function AreaOf(r: Rect): Area {
    Area(2 * r.x, r.y, 2 * r.width, r.height)
  }

  ghost predicate Measured(g: Geometry, r: Rect, raw: seq<bv8>) {
    && 2 * r.width <= U32_MAX && 2 * r.x <= U32_MAX && 2 * g.stridePixels <= U32_MAX
    && |raw| == Offset(r.height, 2 * r.width)
  }

  /** The rectangles that `ApplyRgb565Rect` copies completely. */
  ghost predicate Copyable(length: nat, g: Geometry, r: Rect, raw: seq<bv8>) {
    Measured(g, r, raw) && (r.height > 0 ==> RowFits(length, 2 * g.stridePixels, AreaOf(r), r.height - 1))
  }

  method CopyRow(framebuffer: array<bv8>, at: nat, row: seq<bv8>)
    requires at + |row| <= framebuffer.Length
    modifies framebuffer
    ensures framebuffer[..] == Splice(old(framebuffer[..]), at, row)
  {
    forall j | 0 <= j < |row| {
      framebuffer[at + j] := row[j];
    }
  }

  /** Where row `row` of the rectangle is read from and written to. */
  method RowAddresses(g: Geometry, r: Rect, row: nat) returns (src: nat, dst: nat)
    ensures src == Offset(row, 2 * r.width)
    ensures dst == Offset(r.y + row, 2 * g.stridePixels) + 2 * r.x
  {
    var rowBytes, strideBytes, xBytes := 2 * r.width, 2 * g.stridePixels, 2 * r.x;
    OffsetIsProduct(row, 2 * r.width);
    OffsetIsProduct(r.y + row, 2 * g.stridePixels);
    src, dst := row * rowBytes, (r.y + row) * strideBytes + xBytes;
  }

  /** A row outside the buffer rules out the rectangle. */
  lemma {:induction false} RowOutside(length: nat, g: Geometry, r: Rect, raw: seq<bv8>, row: nat)
    requires row < r.height && !RowFits(length, 2 * g.stridePixels, AreaOf(r), row)
    ensures !Copyable(length, g, r, raw)
  {
    OffsetGrows(r.y + row, r.y + r.height - 1, 2 * g.stridePixels);
  }

  /** Row `row` of the rectangle, copied if it lies inside the buffer. */
  method ApplyRow(m: Machine, framebuffer: array<bv8>, g: Geometry, r: Rect, raw: seq<bv8>, row: nat) returns (ok: bool)
    requires framebuffer.Length <= m.usizeMax
    requires Offset(row, 2 * r.width) + 2 * r.width <= |raw|
    modifies framebuffer
    ensures ok <==> RowFits(framebuffer.Length, 2 * g.stridePixels, AreaOf(r), row)
    ensures framebuffer[..] ==
      if ok then Splice(old(framebuffer[..]), Offset(r.y + row, 2 * g.stridePixels) + 2 * r.x,
                        Piece(raw, 2 * r.width, row))
      else old(framebuffer[..])
  {
    var src, dst := RowAddresses(g, r, row);
    var rowBytes := 2 * r.width;
    var dstEnd := dst + rowBytes;
    if dst > m.usizeMax || dstEnd > m.usizeMax || dstEnd > framebuffer.Length { return false; }
    WindowIsSlice(raw, src, rowBytes);
    CopyRow(framebuffer, dst, raw[src..src + rowBytes]);
    return true;
  }

  /** The checks before the first row is copied. */
  method CheckRect(g: Geometry, r: Rect, raw: seq<bv8>) returns (ok: bool)
    ensures ok <==> Measured(g, r, raw)
  {
    OffsetIsProduct(r.height, 2 * r.width);
    if 2 * r.width > U32_MAX { return false; }
    var rowBytes := 2 * r.width;
    if |raw| != r.height * rowBytes { return false; }
    return 2 * g.stridePixels <= U32_MAX && 2 * r.x <= U32_MAX;
  }

  /** The row loop; a row outside the buffer stops it with the earlier rows written. */
  method CopyRows(m: Machine, framebuffer: array<bv8>, g: Geometry, r: Rect, raw: seq<bv8>)
    returns (ok: bool, ghost rows: nat)
    requires framebuffer.Length <= m.usizeMax && Measured(g, r, raw)
    modifies framebuffer
    ensures ok <==> Copyable(framebuffer.Length, g, r, raw)
    ensures rows <= r.height && RowsFit(framebuffer.Length, 2 * g.stridePixels, AreaOf(r), raw, rows)
    ensures framebuffer[..] == Patched(old(framebuffer[..]), 2 * g.stridePixels, AreaOf(r), raw, rows)
    ensures if ok then rows == r.height
      else rows < r.height && !RowFits(framebuffer.Length, 2 * g.stridePixels, AreaOf(r), rows)
  {
    ghost var before, stride, a := framebuffer[..], 2 * g.stridePixels, AreaOf(r);
    for row := 0 to r.height
      invariant RowsFit(|before|, stride, a, raw, row)
      invariant framebuffer[..] == Patched(before, stride, a, raw, row)
    {
      OffsetGrows(row, r.height, 2 * r.width);
      var fits := ApplyRow(m, framebuffer, g, r, raw, row);
      if fits {
        OneMoreRow(before, stride, a, raw, row);
      } else {
        RowOutside(|before|, g, r, raw, row);
        return false, row;
      }
    }
    return true, r.height;
  }

  /** Copies a rectangle, if its pixels have the right length and it lies inside the buffer. */
  method ApplyRgb565Rect(m: Machine, framebuffer: array<bv8>, g: Geometry, r: Rect, raw: seq<bv8>)
    returns (ok: bool, ghost rows: nat)
    requires framebuffer.Length <= m.usizeMax
    modifies framebuffer
    ensures ok <==> Copyable(framebuffer.Length, g, r, raw)
    ensures rows <= r.height && RowsFit(framebuffer.Length, 2 * g.stridePixels, AreaOf(r), raw, rows)
    ensures framebuffer[..] == Patched(old(framebuffer[..]), 2 * g.stridePixels, AreaOf(r), raw, rows)
    ensures ok ==> rows == r.height
    ensures !ok && rows > 0 ==> rows < r.height && !RowFits(framebuffer.Length, 2 * g.stridePixels, AreaOf(r), rows)
  {
    var measured := CheckRect(g, r, raw);
    if !measured { return false, 0; }
    ok, rows := CopyRows(m, framebuffer, g, r, raw);
  }

  // ---------------------------------------------------------------- what one frame does to the replica

  datatype State = State(
    rgb565: seq<bv8>, geometry: Option<Geometry>, expectedSequence: Option<u64>, awaitingKeyframe: bool)

  datatype Frame = Frame(rgba: seq<bv8>, kind: Kind, sequence: u64, geometry: Geometry, rect: Rect)

  /** A frame is left alone, shown, or refused with an error. */
  datatype Outcome = Ignored | Shown(frame: Frame) | Failed

  const DEFAULT := State([], None, None, true)

  /** A replica that shows something has a geometry, a next sequence and a buffer of that size. */
  ghost predicate ValidState(s: State) {
    && (s.awaitingKeyframe <==> s.expectedSequence.None?)
    && (!s.awaitingKeyframe ==> s.geometry.Some?)
    && (s.geometry.Some? ==> GeometryOk(s.geometry.value) && |s.rgb565| == SurfaceBytes(s.geometry.value))
  }

  function Zeros(n: nat): (s: seq<bv8>)
    ensures |s| == n
  {
    seq(n, _ => 0)
  }

  function SaturatingNext(n: u64): u64 {
    if n == U64_MAX then n else n + 1
  }

  /** The size prefix and the decoded block must both have the announced length. */
  function Decompress(p: Payload, expectedRaw: nat, maxRaw: nat, host: Host): (raw: Option<seq<bv8>>)
    ensures raw.Some? ==> |raw.value| == expectedRaw
  {
    if expectedRaw > maxRaw || p.sizePrefix != Some(expectedRaw) || expectedRaw > host.surfaceMemory then None
    else if p.decoded.Some? && |p.decoded.value| == expectedRaw then p.decoded
    else None
  }

  ghost function Repainted(buf: seq<bv8>, g: Geometry, r: Rect, raw: seq<bv8>): (s: seq<bv8>)
    ensures |s| == |buf|
  {
    if Copyable(|buf|, g, r, raw) then Patched(buf, 2 * g.stridePixels, AreaOf(r), raw, r.height) else buf
  }

  ghost function Rendered(buf: seq<bv8>, g: Geometry): seq<bv8> {
    if Fits(buf, g.width, g.height, 2 * g.stridePixels) then Image(buf, g.width, g.height, 2 * g.stridePixels, Rgba)
      else []
  }

  ghost predicate Affordable(host: Host, g: Geometry) {
    4 * (g.width * g.height) <= host.machine.memory
  }

  /** A delta that does not continue what is shown. */
  predicate Stale(s: State, h: Header) {
    h.kind == RectDelta
    && (s.geometry != Some(h.geometry) || (s.expectedSequence.Some? && s.expectedSequence != Some(h.sequence)))
  }

  ghost function Drawn(s: State, h: Header, raw: seq<bv8>, host: Host): (State, Outcome) {
    if h.kind == Keyframe && SurfaceBytes(h.geometry) > host.surfaceMemory then (s, Failed)
    else
      var canvas := if h.kind == Keyframe then Zeros(SurfaceBytes(h.geometry)) else s.rgb565;
      var t := State(Repainted(canvas, h.geometry, h.rect, raw), Some(h.geometry), Some(SaturatingNext(h.sequence)),
        false);
      if Affordable(host, h.geometry)
      then (t, Shown(Frame(Rendered(t.rgb565, h.geometry), h.kind, h.sequence, h.geometry, h.rect)))
      else (t, Failed)
  }

  ghost function Apply(s: State, h: Header, p: Payload, host: Host): (State, Outcome) {
    if h.flags != FLAG_LZ4_SIZE_PREPENDED || (h.kind != Keyframe && h.kind != RectDelta) || !ValidateShape(h)
    then (s, Failed)
    else if s.awaitingKeyframe && h.kind != Keyframe then (s, Ignored)
    else if Stale(s, h) then (s.(awaitingKeyframe := true, expectedSequence := None), Ignored)
    else
      match Decompress(p, h.rawBytes, MAX_FRAME_SURFACE_BYTES, host)
      case None => (s, Failed)
      case Some(raw) => Drawn(s, h, raw, host)
  }

  /** After the shape check the rectangle copy cannot fail, so no frame is left half drawn. */
  lemma {:induction false} CopyCannotFail(h: Header, length: nat, raw: seq<bv8>)
    requires ValidateShape(h) && |raw| == h.rawBytes && length == SurfaceBytes(h.geometry)
    ensures Copyable(length, h.geometry, h.rect, raw)
  {
    ValidShape(h);
    var g, r := h.geometry, h.rect;
    OffsetGrows(r.y + r.height - 1, g.height, 2 * g.stridePixels);
    OffsetGrows(0, g.height, 2 * g.stridePixels);
    assert Offset(0, 2 * g.stridePixels) == 0;
  }

  /** A complete surface always converts, as long as the image can be allocated. */
  lemma {:induction false} SurfaceConverts(host: Host, g: Geometry, buf: seq<bv8>)
    requires Desktop(host) && GeometryOk(g) && |buf| == SurfaceBytes(g)
    ensures Fits(buf, g.width, g.height, 2 * g.stridePixels)
    ensures Acceptable(host.machine, buf, g.width, g.height, 2 * g.stridePixels) <==> Affordable(host, g)
  {
    OffsetIsProduct(g.height, 2 * g.stridePixels);
    OffsetIsProduct(g.height, g.width);
    NarrowerIsSmaller(g.height, g.width, 2 * g.stridePixels);
    Products(g.width, g.height);
    Products(2 * g.stridePixels, g.height);
  }

  /** Every frame, accepted or not, leaves the replica consistent. */
  lemma {:induction false} ApplyKeepsValid(s: State, h: Header, p: Payload, host: Host)
    requires ValidState(s)
    ensures ValidState(Apply(s, h, p, host).0)
  {
    if ValidateShape(h) { ValidShape(h); }
  }

  /** The whole rectangle of the frame was drawn, onto an empty surface for a keyframe. */
  ghost predicate DrawnCompletely(s: State, t: State, h: Header, raw: seq<bv8>) {
    var canvas := if h.kind == Keyframe then Zeros(SurfaceBytes(h.geometry)) else s.rgb565;
    && Copyable(|canvas|, h.geometry, h.rect, raw)
    && t.rgb565 == Patched(canvas, 2 * h.geometry.stridePixels, AreaOf(h.rect), raw, h.rect.height)
    && t.geometry == Some(h.geometry) && t.expectedSequence == Some(SaturatingNext(h.sequence)) && !t.awaitingKeyframe
  }

  lemma {:induction false} DrawsCompletely(s: State, h: Header, raw: seq<bv8>, host: Host)
    requires ValidState(s) && ValidateShape(h) && |raw| == h.rawBytes
    requires h.kind == Keyframe || (!s.awaitingKeyframe && s.geometry == Some(h.geometry))
    ensures var t := Drawn(s, h, raw, host).0; t == s || DrawnCompletely(s, t, h, raw)
  {
    ValidShape(h);
    CopyCannotFail(h, SurfaceBytes(h.geometry), raw);
  }

  /** A frame that is ignored or refused changes no pixel, unless it was drawn completely and
      only the memory for its image was missing. */
  lemma {:induction false} UnshownFrameKeepsPixels(s: State, h: Header, p: Payload, host: Host)
    requires ValidState(s)
    ensures var (t, out) := Apply(s, h, p, host);
      && (out.Ignored? ==> t.rgb565 == s.rgb565 && t.geometry == s.geometry && t.awaitingKeyframe)
      && (out.Failed? && Affordable(host, h.geometry) ==> t == s)
      && (out.Failed? ==>
            var raw := Decompress(p, h.rawBytes, MAX_FRAME_SURFACE_BYTES, host);
            t == s || (raw.Some? && DrawnCompletely(s, t, h, raw.value)))
  {
    var raw := Decompress(p, h.rawBytes, MAX_FRAME_SURFACE_BYTES, host);
    if raw.Some? && ValidateShape(h) {
      if h.kind == Keyframe || (!s.awaitingKeyframe && s.geometry == Some(h.geometry)) {
        DrawsCompletely(s, h, raw.value, host);
      }
    }
  }

  class FramebufferStreamState {
    var rgb565: array<bv8>
    var geometry: Option<Geometry>
    var expectedSequence: Option<u64>
    var awaitingKeyframe: bool

    ghost function Snapshot(): State
      reads this, rgb565
    {
      State(rgb565[..], geometry, expectedSequence, awaitingKeyframe)
    }

    ghost predicate Valid()
      reads this, rgb565
    {
      ValidState(Snapshot())
    }

    constructor ()
      ensures Valid() && Snapshot() == DEFAULT && fresh(rgb565)
    {
      rgb565 := new bv8[0];
      geometry, expectedSequence, awaitingKeyframe := None, None, true;
    }

    /** A zeroed buffer for a new surface; nothing changes when it cannot be had. */
    method ResetBuffer(g: Geometry, host: Host) returns (ok: bool)
      requires GeometryOk(g) && g.stridePixels * g.height * 2 == SurfaceBytes(g)
      modifies this
      ensures ok <==> SurfaceBytes(g) <= host.surfaceMemory
      ensures geometry == old(geometry)
      ensures if ok
        then fresh(rgb565) && rgb565[..] == Zeros(SurfaceBytes(g)) && expectedSequence == None && !awaitingKeyframe
        else rgb565 == old(rgb565) && Snapshot() == old(Snapshot())
    {
      var bytes := g.stridePixels * g.height * 2;
      if bytes > MAX_FRAME_SURFACE_BYTES || bytes > host.surfaceMemory { return false; }
      rgb565 := new bv8[bytes](_ => 0);
      assert rgb565[..] == Zeros(bytes);
      expectedSequence := None;
      awaitingKeyframe := false;
      return true;
    }

    method ApplyFrame(h: Header, p: Payload, host: Host) returns (out: Outcome)
      requires Valid() && Desktop(host)
      modifies this, rgb565
      ensures Valid() && (rgb565 == old(rgb565) || fresh(rgb565))
      ensures (Snapshot(), out) == Apply(old(Snapshot()), h, p, host)
    {
      ApplyKeepsValid(Snapshot(), h, p, host);
      if h.flags != FLAG_LZ4_SIZE_PREPENDED { return Failed; }
      if h.kind != Keyframe && h.kind != RectDelta { return Failed; }
      if !ValidateShape(h) { return Failed; }
      if awaitingKeyframe && h.kind != Keyframe { return Ignored; }
      if h.kind == RectDelta {
        if geometry != Some(h.geometry) {
          awaitingKeyframe, expectedSequence := true, None;
          return Ignored;
        }
        if expectedSequence.Some? && expectedSequence.value != h.sequence {
          awaitingKeyframe, expectedSequence := true, None;
          return Ignored;
        }
      }
      var raw := Decompress(p, h.rawBytes, MAX_FRAME_SURFACE_BYTES, host);
      if raw.None? { return Failed; }
      out := Draw(h, raw.value, host);
    }

    /** The part of `ApplyFrame` after decompression. */
    method Draw(h: Header, raw: seq<bv8>, host: Host) returns (out: Outcome)
      requires Valid() && Desktop(host) && ValidateShape(h) && |raw| == h.rawBytes
      requires h.kind == Keyframe || (h.kind == RectDelta && geometry == Some(h.geometry))
      modifies this, rgb565
      ensures rgb565 == old(rgb565) || fresh(rgb565)
      ensures (Snapshot(), out) == Drawn(old(Snapshot()), h, raw, host)
    {
      ValidShape(h);
      if geometry != Some(h.geometry) || h.kind == Keyframe {
        var reset := ResetBuffer(h.geometry, host);
        if !reset { return Failed; }
      }
      CopyCannotFail(h, rgb565.Length, raw);
      var ok, rows := ApplyRgb565Rect(host.machine, rgb565, h.geometry, h.rect, raw);
      assert ok;
      geometry := Some(h.geometry);
      expectedSequence := Some(SaturatingNext(h.sequence));
      awaitingKeyframe := false;
      SurfaceConverts(host, h.geometry, rgb565[..]);
      var image := Rgb565FrameToRgba(host.machine, rgb565[..], h.geometry.width, h.geometry.height,
        2 * h.geometry.stridePixels);
      match image {
        case Refused(_) => out := Failed;
        case Converted(rgba) => out := Shown(Frame(rgba, h.kind, h.sequence, h.geometry, h.rect));
      }
    }
  }
}
