/** When a call of the viewer returns a frame, when it fails, and what it passes over. */
module StreamCalls {
  import opened Options
  import opened FramebufferStream
  import opened StreamReplica

  /** A frame header that names a picture and describes it consistently. */
  predicate WellFormed(h: Header) {
    h.flags == 1 && (h.kind == Keyframe || h.kind == RectDelta) && ValidateShape(h)
  }

  /** The frame has the fields of the header. */
  predicate Carried(f: Frame, h: Header) {
    f.kind == h.kind && f.sequence == h.sequence && f.geometry == h.geometry && f.rect == h.rect
  }

  /** The number after another; the largest one of 64 bits is its own successor. */
  predicate Successor(n: nat, next: nat) {
    if n == 18_446_744_073_709_551_615 then next == n else next == n + 1
  }

  /** A frame is passed over exactly when it is a well-formed delta that does not continue what is
      shown, and then a keyframe is awaited; it is an error exactly when it is malformed, or would be
      shown but is not usable.  A frame that is returned carries its header, and its successor is
      expected next. */
  lemma {:induction false} OutcomeExactly(s: State, h: Header, p: Payload, host: Host)
    requires ValidState(s)
    ensures var (t, out) := Apply(s, h, p, host);
      && (out.Ignored? <==> WellFormed(h) && h.kind == RectDelta && !Continues(s, h))
      && (out.Failed? <==> !WellFormed(h) || ((h.kind == Keyframe || Continues(s, h)) && !Usable(h, p, host)))
      && (out.Ignored? ==> t == s.(awaitingKeyframe := true, expectedSequence := None))
      && (!WellFormed(h) ==> t == s)
      && (out.Shown? ==> Carried(out.frame, h) && t.expectedSequence.Some?
                         && Successor(h.sequence, t.expectedSequence.value))
  {
    ShownExactly(s, h, p, host);
  }

  // ---------------------------------------------------------------- no error without a cause

  predicate IsHeartbeat(e: Event) {
    e.Arrived? && e.header.kind == Heartbeat
  }

  /** Nothing is wrong with the event: a reconnect that worked, a heartbeat, or a usable frame. */
  ghost predicate Sound(e: Event) {
    match e
    case Broken(reconnected) => reconnected
    case Arrived(h, p, host) => h.kind == Heartbeat || Usable(h, p, host)
  }

  lemma {:induction false} ReceiveKeepsValid(s: State, e: Event)
    requires ValidState(s)
    ensures ValidState(Receive(s, e).0)
  {
    if e.Arrived? {
      ApplyKeepsValid(s, e.header, e.payload, e.host);
    }
  }

  lemma {:induction false} SoundIsNoError(s: State, e: Event)
    requires ValidState(s) && Sound(e)
    ensures !Receive(s, e).1.Failed?
  {
    if e.Arrived? {
      OutcomeExactly(s, e.header, e.payload, e.host);
    }
  }

  /** A call fails only for a cause: a lost connection, the end of the stream, or a bad frame. */
  lemma {:induction false} FailsOnlyForCause(s: State, events: seq<Event>)
    requires ValidState(s) && forall e :: e in events ==> Sound(e)
    ensures !Next(s, events).1.Failed?
    decreases |events|
  {
    if events == [] {
    } else {
      SoundIsNoError(s, events[0]);
      ReceiveKeepsValid(s, events[0]);
      FailsOnlyForCause(Receive(s, events[0]).0, events[1..]);
    }
  }

  // ---------------------------------------------------------------- and every cause is an error

  /** What no viewer survives: a reconnect that failed, the end of the stream, a reported error, a
      greeting, or a frame whose header is wrong. */
  predicate Fatal(e: Event) {
    match e
    case Broken(reconnected) => !reconnected
    case Arrived(h, _, _) => h.kind == End || h.kind == Error || h.kind == Hello
                             || (h.kind != Heartbeat && !WellFormed(h))
  }

  /** None of the events ends a call that begins at `s`. */
  ghost predicate PassedOver(s: State, events: seq<Event>)
    decreases |events|
  {
    events != [] ==> Receive(s, events[0]).1.Ignored? && PassedOver(Receive(s, events[0]).0, events[1..])
  }

  ghost function After(s: State, events: seq<Event>): State
    decreases |events|
  {
    if events == [] then s else After(Receive(s, events[0]).0, events[1..])
  }

  lemma {:induction false} NextSkips(s: State, quiet: seq<Event>, rest: seq<Event>)
    requires PassedOver(s, quiet)
    ensures var (t, out, n) := Next(After(s, quiet), rest); Next(s, quiet + rest) == (t, out, |quiet| + n)
    decreases |quiet|
  {
    if quiet == [] {
      assert quiet + rest == rest;
    } else {
      assert (quiet + rest)[0] == quiet[0] && (quiet + rest)[1..] == quiet[1..] + rest;
      NextSkips(Receive(s, quiet[0]).0, quiet[1..], rest);
    }
  }

  /** The first fatal event that a call reaches ends it with an error, changes nothing, and leaves
      what follows for later calls. */
  lemma {:induction false} FatalEndsTheCall(s: State, quiet: seq<Event>, cause: Event, rest: seq<Event>)
    requires PassedOver(s, quiet) && Fatal(cause)
    ensures Next(s, quiet + ([cause] + rest)) == (After(s, quiet), Failed, |quiet| + 1)
  {
    NextSkips(s, quiet, [cause] + rest);
    assert ([cause] + rest)[0] == cause;
    var t := After(s, quiet);
    assert Receive(t, cause) == (t, Failed);
  }

  // ---------------------------------------------------------------- heartbeats

  function WithoutHeartbeats(events: seq<Event>): seq<Event>
    decreases |events|
  {
    if events == [] then []
    else if IsHeartbeat(events[0]) then WithoutHeartbeats(events[1..])
    else [events[0]] + WithoutHeartbeats(events[1..])
  }

  /** Heartbeats change neither what a call returns nor what the viewer holds afterwards. */
  lemma {:induction false} HeartbeatsChangeNothing(s: State, events: seq<Event>)
    ensures var (t, out, n) := Next(s, events);
      n <= |events| && Next(s, WithoutHeartbeats(events)) == (t, out, |WithoutHeartbeats(events[..n])|)
    decreases |events|
  {
    if events == [] {
    } else {
      var rest := events[1..];
      var s' := Receive(s, events[0]).0;
      HeartbeatsChangeNothing(s', rest);
      var n := Next(s, events).2;
      assert n > 0 && events[..n][1..] == rest[..n - 1];
      if !IsHeartbeat(events[0]) {
        var fewer := WithoutHeartbeats(events);
        assert fewer[0] == events[0] && fewer[1..] == WithoutHeartbeats(rest);
      }
    }
  }

  // ---------------------------------------------------------------- which frame is returned

  /** A frame that is returned is the last event taken, and a call that takes everything without
      an error or a frame has passed over all of it. */
  lemma {:induction false} ReturnsTheLastTaken(s: State, events: seq<Event>)
    requires ValidState(s)
    ensures var (t, out, n) := Next(s, events);
      && n <= |events|
      && (out.Ignored? <==> PassedOver(s, events)) && (out.Ignored? ==> n == |events| && t == After(s, events))
      && (!out.Ignored? ==> n > 0 && PassedOver(s, events[..n - 1]))
      && (out.Shown? ==> events[n - 1].Arrived? && Carried(out.frame, events[n - 1].header))
    decreases |events|
  {
    if events == [] {
    } else {
      var s', rest := Receive(s, events[0]).0, events[1..];
      if events[0].Arrived? {
        OutcomeExactly(s, events[0].header, events[0].payload, events[0].host);
      }
      ReceiveKeepsValid(s, events[0]);
      ReturnsTheLastTaken(s', rest);
      var n := Next(s, events).2;
      if Receive(s, events[0]).1.Ignored? && !Next(s', rest).1.Ignored? {
        assert events[..n - 1][1..] == rest[..n - 2] && events[..n - 1][0] == events[0];
      }
    }
  }

  /** While a keyframe is awaited, the first frame returned is one. */
  lemma {:induction false} FirstReturnedIsKeyframe(s: State, events: seq<Event>)
    requires ValidState(s) && s.awaitingKeyframe
    ensures var (t, out, n) := Next(s, events); out.Shown? ==> out.frame.kind == Keyframe
    decreases |events|
  {
    if events == [] {
    } else {
      if events[0].Arrived? {
        OutcomeExactly(s, events[0].header, events[0].payload, events[0].host);
      }
      ReceiveKeepsValid(s, events[0]);
      if Receive(s, events[0]).1.Ignored? {
        FirstReturnedIsKeyframe(Receive(s, events[0]).0, events[1..]);
      }
    }
  }

  /** A call that meets nothing wrong returns a frame as soon as there is a keyframe to return. */
  lemma {:induction false} KeyframeBringsAFrame(s: State, events: seq<Event>)
    requires ValidState(s) && forall e :: e in events ==> Sound(e)
    requires exists e :: e in events && e.Arrived? && e.header.kind == Keyframe
    ensures Next(s, events).1.Shown?
    decreases |events|
  {
    var first := events[0];
    SoundIsNoError(s, first);
    ReceiveKeepsValid(s, first);
    if Receive(s, first).1.Ignored? {
      if first.Arrived? {
        OutcomeExactly(s, first.header, first.payload, first.host);
      }
      var e :| e in events && e.Arrived? && e.header.kind == Keyframe;
      assert e in events[1..];
      KeyframeBringsAFrame(Receive(s, first).0, events[1..]);
    }
  }
}
