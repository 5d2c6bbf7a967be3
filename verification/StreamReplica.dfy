/** What a viewer sees over whole runs: lost, repeated and reordered frames, gaps, reconnects. */
module StreamReplica {
  import opened Options
  import opened RowOffsets
  import opened Surfaces
  import opened PixelConversion
  import opened FramebufferStream

  // ---------------------------------------------------------------- pictures

  /** What a producer shows: `height` rows of `2 * width` bytes. */
  datatype Picture = Picture(geometry: Geometry, rows: seq<seq<bv8>>)

  ghost predicate ProperPicture(p: Picture) {
    |p.rows| == p.geometry.height && forall y :: 0 <= y < |p.rows| ==> |p.rows[y]| == 2 * p.geometry.width
  }

  /** The surface of a producer after each of its frames. */
  type Producer = nat -> Picture

  /** The image of the first `n` rows of a picture, each pixel expanded by `f`. */
  function Painted(rows: seq<seq<bv8>>, n: nat, width: nat, f: Expansion): (image: seq<bv8>)
    requires n <= |rows| && forall y :: 0 <= y < |rows| ==> |rows[y]| == 2 * width
  {
    if n == 0 then [] else Painted(rows, n - 1, width, f) + Spread(rows[n - 1], width, f)
  }

  /** The image made from a buffer is the image of the picture it displays. */
  lemma {:induction false} ImageOfPicture(buf: seq<bv8>, stride: nat, width: nat, rows: seq<seq<bv8>>, n: nat,
                                          f: Expansion)
    requires Displays(buf, stride, 2 * width, rows) && n <= |rows| && Fits(buf, width, n, stride)
    ensures Image(buf, width, n, stride, f) == Painted(rows, n, width, f)
  {
    for k := 0 to n
      invariant Fits(buf, width, k, stride) && Image(buf, width, k, stride, f) == Painted(rows, k, width, f)
    {
      OffsetGrows(k + 1, n, stride);
      assert rows[k] == Row(buf, width, stride, k);
    }
  }

  // ---------------------------------------------------------------- honest producers

  /** The surface after a delta is the surface before with the rectangle redrawn. */
  ghost predicate TurnsInto(before: Picture, after: Picture, h: Header, raw: seq<bv8>) {
    && ProperPicture(before) && ProperPicture(after) && before.geometry == after.geometry == h.geometry
    && (RectInside(h.rect, h.geometry) && |raw| == Offset(h.rect.height, 2 * h.rect.width) ==>
          after.rows == Redrawn(before.rows, 2 * h.geometry.width, AreaOf(h.rect), raw))
  }

  /** A keyframe carries the whole surface of its sequence number. */
  ghost predicate Carries(surface: Picture, h: Header, raw: seq<bv8>) {
    && ProperPicture(surface) && surface.geometry == h.geometry
    && (|raw| == Offset(h.geometry.height, 2 * h.geometry.width) ==>
          surface.rows == Sent(raw, 2 * h.geometry.width, h.geometry.height))
  }

  /** What is assumed of the frames of a producer. Nothing is said of payloads that do not decode. */
  ghost predicate Conforms(producer: Producer, h: Header, p: Payload) {
    p.decoded.Some? ==>
      && (h.kind == Keyframe ==> Carries(producer(h.sequence), h, p.decoded.value))
      && (h.kind == RectDelta ==>
            h.sequence > 0 && TurnsInto(producer(h.sequence - 1), producer(h.sequence), h, p.decoded.value))
  }

  ghost predicate ShowsSurface(s: State, surface: Picture) {
    && ProperPicture(surface) && s.geometry == Some(surface.geometry)
    && Displays(s.rgb565, 2 * surface.geometry.stridePixels, 2 * surface.geometry.width, surface.rows)
  }

  /** A replica that is not waiting shows surface `n`, and waits for the delta to the next one. */
  ghost predicate ShowsFrame(producer: Producer, s: State, n: u64) {
    s.expectedSequence == Some(SaturatingNext(n)) && ShowsSurface(s, producer(n))
  }

  ghost predicate Tracks(producer: Producer, s: State) {
    ValidState(s) && (!s.awaitingKeyframe ==> exists n: u64 :: ShowsFrame(producer, s, n))
  }

  /** A frame shows exactly the producer's surface of its own sequence number. */
  ghost predicate Faithful(f: Frame, producer: Producer) {
    var surface := producer(f.sequence);
    && ProperPicture(surface) && f.geometry == surface.geometry
    && f.rgba == Painted(surface.rows, surface.geometry.height, surface.geometry.width, Rgba)
  }

  // ---------------------------------------------------------------- one frame

  /** A complete drawing of a surface is what the replica then shows. */
  lemma {:induction false} DrawnIsShown(producer: Producer, s: State, h: Header, raw: seq<bv8>, host: Host,
                                        canvas: seq<bv8>, rows: seq<seq<bv8>>)
    requires Desktop(host) && WellShaped(h) && ValidateShape(h) && |raw| == h.rawBytes
    requires |canvas| == SurfaceBytes(h.geometry) && |rows| == h.geometry.height
    requires Displays(canvas, 2 * h.geometry.stridePixels, 2 * h.geometry.width, rows)
    requires ProperPicture(producer(h.sequence)) && producer(h.sequence).geometry == h.geometry
    requires producer(h.sequence).rows == Redrawn(rows, 2 * h.geometry.width, AreaOf(h.rect), raw)
    ensures ShowsSurface(s.(rgb565 := Repainted(canvas, h.geometry, h.rect, raw), geometry := Some(h.geometry)),
      producer(h.sequence))
    ensures Rendered(Repainted(canvas, h.geometry, h.rect, raw), h.geometry)
      == Painted(producer(h.sequence).rows, h.geometry.height, h.geometry.width, Rgba)
  {
    var g := h.geometry;
    CopyCannotFail(h, |canvas|, raw);
    PatchedDisplays(canvas, 2 * g.stridePixels, 2 * g.width, AreaOf(h.rect), raw, rows);
    var buf := Repainted(canvas, g, h.rect, raw);
    SurfaceConverts(host, g, buf);
    ImageOfPicture(buf, 2 * g.stridePixels, g.width, producer(h.sequence).rows, g.height, Rgba);
  }

  lemma {:induction false} KeyframeReplacesAll(surface: Picture, h: Header, raw: seq<bv8>, rows: seq<seq<bv8>>)
    requires WellShaped(h) && h.kind == Keyframe && |raw| == h.rawBytes && Carries(surface, h, raw)
    requires ProperPicture(Picture(h.geometry, rows))
    ensures surface.rows == Redrawn(rows, 2 * h.geometry.width, AreaOf(h.rect), raw)
  {
    FullRedraw(rows, 2 * h.geometry.width, raw);
  }

  lemma {:induction false} KeyframeDraws(producer: Producer, s: State, h: Header, raw: seq<bv8>, host: Host,
                                         canvas: seq<bv8>)
    requires Desktop(host) && ValidateShape(h) && WellShaped(h) && |raw| == h.rawBytes && h.kind == Keyframe
    requires Carries(producer(h.sequence), h, raw) && |canvas| == SurfaceBytes(h.geometry)
    ensures ShowsSurface(s.(rgb565 := Repainted(canvas, h.geometry, h.rect, raw), geometry := Some(h.geometry)),
      producer(h.sequence))
    ensures Rendered(Repainted(canvas, h.geometry, h.rect, raw), h.geometry)
      == Painted(producer(h.sequence).rows, h.geometry.height, h.geometry.width, Rgba)
  {
    var rows := AllRows(canvas, 2 * h.geometry.stridePixels, 2 * h.geometry.width, h.geometry.height);
    KeyframeReplacesAll(producer(h.sequence), h, raw, rows);
    DrawnIsShown(producer, s, h, raw, host, canvas, rows);
  }

  lemma {:induction false} KeyframeIsShown(producer: Producer, s: State, h: Header, raw: seq<bv8>, host: Host)
    requires Desktop(host) && ValidateShape(h) && |raw| == h.rawBytes && h.kind == Keyframe
    requires Carries(producer(h.sequence), h, raw)
    ensures var (t, out) := Drawn(s, h, raw, host);
      && (t == s || ShowsFrame(producer, t, h.sequence))
      && (out.Shown? ==> ShowsFrame(producer, t, h.sequence) && Faithful(out.frame, producer))
  {
    ValidShape(h);
    KeyframeDraws(producer, s, h, raw, host, Zeros(SurfaceBytes(h.geometry)));
  }

  /** Redrawing the surface before a delta, or once more the surface after it, gives the surface after it. */
  lemma {:induction false} DeltaFromEither(producer: Producer, h: Header, raw: seq<bv8>, n: u64)
    requires h.sequence > 0 && SaturatingNext(n) == h.sequence && RectInside(h.rect, h.geometry)
    requires |raw| == Offset(h.rect.height, 2 * h.rect.width)
    requires TurnsInto(producer(h.sequence - 1), producer(h.sequence), h, raw)
    ensures ProperPicture(producer(n)) && producer(n).geometry == h.geometry
    ensures producer(h.sequence).rows == Redrawn(producer(n).rows, 2 * h.geometry.width, AreaOf(h.rect), raw)
  {
    if n == h.sequence {
      RedrawnTwice(producer(n - 1).rows, 2 * h.geometry.width, AreaOf(h.rect), raw);
    }
  }

  lemma {:induction false} DeltaIsShown(producer: Producer, s: State, h: Header, raw: seq<bv8>, host: Host, n: u64)
    requires Desktop(host) && ValidateShape(h) && |raw| == h.rawBytes && h.kind == RectDelta
    requires ValidState(s) && ShowsFrame(producer, s, n) && s.expectedSequence == Some(h.sequence)
      && s.geometry == Some(h.geometry)
    requires h.sequence > 0 && TurnsInto(producer(h.sequence - 1), producer(h.sequence), h, raw)
    ensures var (t, out) := Drawn(s, h, raw, host);
      ShowsFrame(producer, t, h.sequence) && (out.Shown? ==> Faithful(out.frame, producer))
  {
    ValidShape(h);
    DeltaFromEither(producer, h, raw, n);
    DrawnIsShown(producer, s, h, raw, host, s.rgb565, producer(n).rows);
  }

  /** Whatever frame of the producer arrives, in whatever order: the replica goes on showing one
      of the producer's surfaces or waits, and a frame that is returned is the producer's own. */
  lemma {:induction false} FrameKeepsTrack(producer: Producer, s: State, h: Header, p: Payload, host: Host)
    requires Desktop(host) && Tracks(producer, s) && Conforms(producer, h, p)
    ensures var (t, out) := Apply(s, h, p, host);
      Tracks(producer, t) && (out.Shown? ==> out.frame.sequence == h.sequence && Faithful(out.frame, producer))
  {
    ApplyKeepsValid(s, h, p, host);
    var raw := Decompress(p, h.rawBytes, MAX_FRAME_SURFACE_BYTES, host);
    if raw.Some? && ValidateShape(h) {
      if h.kind == Keyframe {
        KeyframeIsShown(producer, s, h, raw.value, host);
      } else if h.kind == RectDelta && !s.awaitingKeyframe && !Stale(s, h) {
        var n: u64 :| ShowsFrame(producer, s, n);
        DeltaIsShown(producer, s, h, raw.value, host, n);
      }
    }
  }

  // ---------------------------------------------------------------- which frames are shown

  /** A frame that the machine can decode, hold and convert. */
  ghost predicate Usable(h: Header, p: Payload, host: Host) {
    && (h.kind == Keyframe || h.kind == RectDelta) && h.flags == FLAG_LZ4_SIZE_PREPENDED && ValidateShape(h)
    && h.rawBytes <= MAX_FRAME_SURFACE_BYTES && h.rawBytes <= host.surfaceMemory
    && p.sizePrefix == Some(h.rawBytes) && p.decoded.Some? && |p.decoded.value| == h.rawBytes
    && (h.kind == Keyframe ==> SurfaceBytes(h.geometry) <= host.surfaceMemory) && Affordable(host, h.geometry)
  }

  /** The delta that continues what is shown. */
  ghost predicate Continues(s: State, h: Header) {
    !s.awaitingKeyframe && s.geometry == Some(h.geometry) && s.expectedSequence == Some(h.sequence)
  }

  /** Exactly the usable keyframes, and the usable deltas that continue what is shown, are shown. */
  lemma {:induction false} ShownExactly(s: State, h: Header, p: Payload, host: Host)
    requires ValidState(s)
    ensures var (t, out) := Apply(s, h, p, host);
      && (out.Shown? <==> Usable(h, p, host) && (h.kind == Keyframe || Continues(s, h)))
      && (out.Shown? ==> !t.awaitingKeyframe && t.geometry == Some(h.geometry)
                         && t.expectedSequence == Some(SaturatingNext(h.sequence)))
  {
  }

  datatype Arrival = Arrival(header: Header, payload: Payload, host: Host)

  /** Every one of the frames is shown when they arrive in this order. */
  ghost predicate AllShown(s: State, frames: seq<Arrival>)
    decreases |frames|
  {
    frames != [] ==>
      var step := Apply(s, frames[0].header, frames[0].payload, frames[0].host);
      step.1.Shown? && AllShown(step.0, frames[1..])
  }

  /** A usable frame that follows the one before without a gap: a keyframe, or the next delta of its geometry. */
  ghost predicate Follows(previous: Header, a: Arrival) {
    Usable(a.header, a.payload, a.host)
    && (a.header.kind == RectDelta ==>
          a.header.geometry == previous.geometry && a.header.sequence == previous.sequence + 1)
  }

  lemma {:induction false} FirstIsShown(s: State, a: Arrival)
    requires ValidState(s) && Usable(a.header, a.payload, a.host)
    requires a.header.kind == Keyframe || Continues(s, a.header)
    ensures var (t, out) := Apply(s, a.header, a.payload, a.host);
      && out.Shown? && ValidState(t)
      && (forall next: Arrival :: Follows(a.header, next) ==> next.header.kind == Keyframe || Continues(t, next.header))
  {
    ShownExactly(s, a.header, a.payload, a.host);
    ApplyKeepsValid(s, a.header, a.payload, a.host);
  }

  /** From any state, a usable keyframe and everything that follows it without a gap is shown. */
  lemma {:induction false} NothingIsSkipped(s: State, frames: seq<Arrival>)
    requires ValidState(s)
    requires frames != [] ==>
      Usable(frames[0].header, frames[0].payload, frames[0].host)
      && (frames[0].header.kind == Keyframe || Continues(s, frames[0].header))
    requires forall i :: 0 < i < |frames| ==> Follows(frames[i - 1].header, frames[i])
    ensures AllShown(s, frames)
    decreases |frames|
  {
    if frames == [] {
    } else {
      var a := frames[0];
      FirstIsShown(s, a);
      NothingIsSkipped(Apply(s, a.header, a.payload, a.host).0, frames[1..]);
    }
  }

  // ---------------------------------------------------------------- whole runs

  /** What the connection delivers: a frame, or a read error with the outcome of the reconnect. */
  datatype Event = Arrived(header: Header, payload: Payload, host: Host) | Broken(reconnected: bool)

  ghost function Receive(s: State, e: Event): (State, Outcome) {
    match e
    case Broken(reconnected) => if reconnected then (DEFAULT, Ignored) else (s, Failed)
    case Arrived(h, p, host) =>
      match h.kind
      case Heartbeat => (s, Ignored)
      case Keyframe | RectDelta => Apply(s, h, p, host)
      case End | Error | Hello => (s, Failed)
  }

  /** Everything the connection delivers in its `k`-th session comes from the producer of that session. */
  ghost predicate Genuine(k: nat, events: seq<Event>, producers: nat -> Producer)
    decreases |events|
  {
    events != [] ==>
      && (events[0].Arrived? ==>
            Desktop(events[0].host) && Conforms(producers(k), events[0].header, events[0].payload))
      && Genuine(NextSession(k, events[0]), events[1..], producers)
  }

  function NextSession(k: nat, e: Event): nat {
    if e == Broken(true) then k + 1 else k
  }

  ghost predicate EveryFrameFaithful(s: State, k: nat, events: seq<Event>, producers: nat -> Producer)
    decreases |events|
  {
    events != [] ==>
      var (t, out) := Receive(s, events[0]);
      && (out.Shown? ==> out.frame.sequence == events[0].header.sequence && Faithful(out.frame, producers(k)))
      && EveryFrameFaithful(t, NextSession(k, events[0]), events[1..], producers)
  }

  /** Over any run, with any loss, repetition, reordering, geometry changes and reconnects: every
      frame the viewer gets is the surface the current producer had at that sequence number. */
  lemma {:induction false} RunIsFaithful(s: State, k: nat, events: seq<Event>, producers: nat -> Producer)
    requires Tracks(producers(k), s) && Genuine(k, events, producers)
    ensures EveryFrameFaithful(s, k, events, producers)
    decreases |events|
  {
    if events == [] {
    } else {
      var e := events[0];
      if e.Arrived? && (e.header.kind == Keyframe || e.header.kind == RectDelta) {
        FrameKeepsTrack(producers(k), s, e.header, e.payload, e.host);
      }
      RunIsFaithful(Receive(s, e).0, NextSession(k, e), events[1..], producers);
    }
  }

  /** The state, the outcome and the number of events of one call of `NextFrame`. */
  ghost function Next(s: State, events: seq<Event>): (State, Outcome, nat)
    decreases |events|
  {
    if events == [] then (s, Ignored, 0)
    else
      var step := Receive(s, events[0]);
      if !step.1.Ignored? then (step.0, step.1, 1)
      else var later := Next(step.0, events[1..]); (later.0, later.1, later.2 + 1)
  }

  function SessionAfter(k: nat, events: seq<Event>, n: nat): nat
    requires n <= |events|
    decreases n
  {
    if n == 0 then k else SessionAfter(NextSession(k, events[0]), events[1..], n - 1)
  }

  /** What a call returns is the current producer's surface, and the next call goes on from there. */
  lemma {:induction false} NextIsFaithful(s: State, k: nat, events: seq<Event>, producers: nat -> Producer)
    requires EveryFrameFaithful(s, k, events, producers)
    ensures var (t, out, n) := Next(s, events);
      && n <= |events|
      && (out.Shown? ==> Faithful(out.frame, producers(SessionAfter(k, events, n))))
      && EveryFrameFaithful(t, SessionAfter(k, events, n), events[n..], producers)
    decreases |events|
  {
    if events == [] {
    } else {
      var step := Receive(s, events[0]);
      var rest := events[1..];
      if step.1.Ignored? {
        NextIsFaithful(step.0, NextSession(k, events[0]), rest, producers);
        var n := Next(step.0, rest).2;
        assert rest[n..] == events[n + 1..];
      } else {
        assert SessionAfter(k, events, 1) == SessionAfter(NextSession(k, events[0]), rest, 0);
      }
    }
  }

  /** The first `n` events were ignored and led from `s` to `t`. */
  ghost predicate Continued(s: State, events: seq<Event>, t: State, n: nat)
    requires n <= |events|
  {
    var later := Next(t, events[n..]);
    Next(s, events) == (later.0, later.1, n + later.2)
  }

  lemma {:induction false} OneMoreEvent(s: State, events: seq<Event>, t: State, n: nat)
    requires n < |events| && Continued(s, events, t, n)
    ensures var (u, out) := Receive(t, events[n]);
      if out.Ignored? then Continued(s, events, u, n + 1) else Next(s, events) == (u, out, n + 1)
  {
    assert events[n..][0] == events[n] && events[n..][1..] == events[n + 1..];
  }

  class Viewer {
    var state: FramebufferStreamState

    constructor ()
      ensures state.Valid() && state.Snapshot() == DEFAULT && fresh(state) && fresh(state.rgb565)
    {
      state := new FramebufferStreamState();
    }

    /** One event; a reconnect starts over with a new state. */
    method HandleEvent(e: Event) returns (out: Outcome)
      requires state.Valid() && (e.Arrived? ==> Desktop(e.host))
      modifies this, state, state.rgb565
      ensures state.Valid() && (state == old(state) || fresh(state))
      ensures state.rgb565 == old(state.rgb565) || fresh(state.rgb565)
      ensures (state.Snapshot(), out) == Receive(old(state.Snapshot()), e)
    {
      match e {
        case Broken(reconnected) =>
          if !reconnected { return Failed; }
          state := new FramebufferStreamState();
          return Ignored;
        case Arrived(h, p, host) =>
          match h.kind {
            case Heartbeat => return Ignored;
            case Keyframe | RectDelta => out := state.ApplyFrame(h, p, host);
            case End | Error | Hello => return Failed;
          }
      }
    }

    /** Takes events until there is a frame or an error. */
    method NextFrame(events: seq<Event>) returns (out: Outcome, taken: nat)
      requires state.Valid() && forall e :: e in events && e.Arrived? ==> Desktop(e.host)
      modifies this, state, state.rgb565
      ensures state.Valid() && (state == old(state) || fresh(state))
      ensures (state.Snapshot(), out, taken) == Next(old(state.Snapshot()), events)
    {
      ghost var start := state.Snapshot();
      taken, out := 0, Ignored;
      while taken < |events|
        invariant taken <= |events| && state.Valid()
        invariant state == old(state) || fresh(state)
        invariant state.rgb565 == old(state.rgb565) || fresh(state.rgb565)
        invariant out.Ignored? && Continued(start, events, state.Snapshot(), taken)
      {
        OneMoreEvent(start, events, state.Snapshot(), taken);
        out := HandleEvent(events[taken]);
        taken := taken + 1;
        if !out.Ignored? { return; }
      }
    }
  }
}
