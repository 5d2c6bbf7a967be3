/** The two-clock request/acknowledge transport of the scaler.

    An output domain toggles `oReadPre` to issue a request and waits.  The toggle
    crosses synchronisers into the Avalon domain, becomes a one-edge pulse, then
    `pending`, then (once accepted) a toggle of `avlReadack`, which crosses back and
    becomes `oReadack`.  Either clock may stop for ever; scheduling, acceptance and
    reset are arbitrary.

    `Registers` and `Tick` are the reference: every right-hand side reads the old
    value.  The class `Transport` executes the two processes assignment by
    assignment and is proved against `Tick`. */
module RequestTransport {

  /** What the environment does at one instant. */
  datatype Input =
    | Reset
    | Edge(oStep: bool, avlStep: bool, schedule: bool, acceptReady: bool)

  datatype Event = Issue | Receive | Accept | Ack

  /** The registers of the output domain. */
  datatype Output = Output(
    oResetNa: bool, oReadPre: bool, oRead: bool,
    oReadackSync: bool, oReadackSync2: bool, oReadack: bool, waiting: bool)

  /** The registers of the Avalon domain. */
  datatype Avalon = Avalon(
    avlResetNa: bool, avlReadack: bool, avlReadSync: bool, avlReadSync2: bool,
    avlReadPulse: bool, pending: bool)

  datatype Registers = Registers(o: Output, a: Avalon)

  const OUTPUT_CLEARED := Output(false, false, false, false, false, false, false)
  const AVALON_CLEARED := Avalon(false, false, false, false, false, false)
  const CLEARED := Registers(OUTPUT_CLEARED, AVALON_CLEARED)

  function OutputTick(o: Output, avlReadack: bool, schedule: bool): Output {
    if !o.oResetNa then OUTPUT_CLEARED.(oResetNa := true)
    else Output(true, o.oReadPre != (!o.waiting && schedule), o.oReadPre,
                avlReadack, o.oReadackSync, o.oReadackSync != o.oReadackSync2,
                if o.waiting then !o.oReadack else schedule)
  }

  function AvalonTick(a: Avalon, oRead: bool, acceptReady: bool): Avalon {
    var accepts := a.pending && acceptReady;
    if !a.avlResetNa then AVALON_CLEARED.(avlResetNa := true)
    else Avalon(true, a.avlReadack != accepts, oRead, a.avlReadSync,
                a.avlReadSync != a.avlReadSync2, (a.pending || a.avlReadPulse) && !accepts)
  }

  /** One instant.  A domain still in reset only leaves it; the two domains sample each
      other's registers as they were before the edge. */
  function Tick(s: Registers, i: Input): Registers {
    match i
    case Reset => CLEARED
    case Edge(oStep, avlStep, schedule, acceptReady) =>
      Registers(if oStep then OutputTick(s.o, s.a.avlReadack, schedule) else s.o,
                if avlStep then AvalonTick(s.a, s.o.oRead, acceptReady) else s.a)
  }

  predicate Fires(s: Registers, i: Input, e: Event) {
    i.Edge? &&
    match e
    case Issue => i.oStep && s.o.oResetNa && i.schedule && !s.o.waiting
    case Receive => i.avlStep && s.a.avlResetNa && s.a.avlReadPulse
    case Accept => i.avlStep && s.a.avlResetNa && s.a.pending && i.acceptReady
    case Ack => i.oStep && s.o.oResetNa && s.o.oReadack
  }

  function When(b: bool, e: Event): seq<Event> {
    if b then [e] else []
  }

  /** The events of one instant. */
  function Events(s: Registers, i: Input): seq<Event> {
    When(Fires(s, i, Issue), Issue) + When(Fires(s, i, Receive), Receive) +
    When(Fires(s, i, Accept), Accept) + When(Fires(s, i, Ack), Ack)
  }

  // ---------------------------------------------------------------- runs

  /** Registers together with the events seen since the last reset. */
  datatype System = System(regs: Registers, trace: seq<Event>)

  function Next(y: System, i: Input): System {
    System(Tick(y.regs, i), if i.Reset? then [] else y.trace + Events(y.regs, i))
  }

  /** The system after a run that began in reset. */
  function Reached(inputs: seq<Input>): System {
    if inputs == [] then System(CLEARED, [])
    else Next(Reached(inputs[..|inputs| - 1]), inputs[|inputs| - 1])
  }

  // ---------------------------------------------------------------- where the token is

  function One(b: bool): nat { if b then 1 else 0 }

  /** Stage 1..8 counts the handovers left before the acknowledgement is consumed. */
  predicate TokenAt(s: Registers, stage: nat) {
    match stage
    case 8 => s.o.oReadPre != s.o.oRead
    case 7 => s.o.oRead != s.a.avlReadSync
    case 6 => s.a.avlReadSync != s.a.avlReadSync2
    case 5 => s.a.avlReadPulse
    case 4 => s.a.pending
    case 3 => s.a.avlReadack != s.o.oReadackSync
    case 2 => s.o.oReadackSync != s.o.oReadackSync2
    case 1 => s.o.oReadack
    case _ => false
  }

  function Tokens(s: Registers): nat {
    One(TokenAt(s, 8)) + One(TokenAt(s, 7)) + One(TokenAt(s, 6)) + One(TokenAt(s, 5)) +
    One(TokenAt(s, 4)) + One(TokenAt(s, 3)) + One(TokenAt(s, 2)) + One(TokenAt(s, 1))
  }

  predicate TogglesAgree(s: Registers) {
    s.o.oReadPre == s.o.oRead == s.a.avlReadSync == s.a.avlReadSync2 == s.a.avlReadack
    == s.o.oReadackSync == s.o.oReadackSync2
  }

  ghost predicate Consistent(s: Registers) {
    && Tokens(s) == One(s.o.waiting)
    && (s.a.avlReadSync2 != s.a.avlReadack <==> s.a.avlReadPulse || s.a.pending)
    && (!s.o.oResetNa ==> s.o == OUTPUT_CLEARED && s.a == AVALON_CLEARED.(avlResetNa := s.a.avlResetNa))
    && (!s.a.avlResetNa ==> s.a == AVALON_CLEARED && !s.o.oReadackSync && !s.o.oReadackSync2 && !s.o.oReadack)
  }

  lemma {:induction false} TickKeepsConsistent(s: Registers, i: Input)
    requires Consistent(s)
    ensures Consistent(Tick(s, i))
  {
  }

  lemma {:induction false} ReachedIsConsistent(inputs: seq<Input>)
    ensures Consistent(Reached(inputs).regs)
  {
    if inputs == [] {
    } else {
      ReachedIsConsistent(inputs[..|inputs| - 1]);
      TickKeepsConsistent(Reached(inputs[..|inputs| - 1]).regs, inputs[|inputs| - 1]);
    }
  }

  /** In every reachable state `waiting` means exactly one token in exactly one of the
      eight stages; otherwise the loop is quiet.  A pulse never meets a pending
      request, so clearing `pending` after setting it never drops one. */
  lemma {:induction false} OneTokenInFlight(inputs: seq<Input>)
    ensures var s := Reached(inputs).regs;
            && (s.o.waiting ==> exists k :: 1 <= k <= 8 && TokenAt(s, k) && forall j :: TokenAt(s, j) ==> j == k)
            && (!s.o.waiting ==> TogglesAgree(s) && forall j :: !TokenAt(s, j))
            && !(s.a.avlReadPulse && s.a.pending)
  {
    ReachedIsConsistent(inputs);
    var s := Reached(inputs).regs;
    if s.o.waiting {
      var k := Stage(s);
      assert TokenAt(s, k) && forall j :: TokenAt(s, j) ==> j == k;
    }
  }

  // ---------------------------------------------------------------- order and conservation

  function Cycle(n: nat): Event {
    match n % 4
    case 0 => Issue
    case 1 => Receive
    case 2 => Accept
    case _ => Ack
  }

  /** The stage of the token, or 0 when the loop is quiet. */
  function Stage(s: Registers): nat {
    if TokenAt(s, 8) then 8 else if TokenAt(s, 7) then 7 else if TokenAt(s, 6) then 6
    else if TokenAt(s, 5) then 5 else if TokenAt(s, 4) then 4 else if TokenAt(s, 3) then 3
    else if TokenAt(s, 2) then 2 else if TokenAt(s, 1) then 1 else 0
  }

  /** How many events of the current cycle a token at this stage has behind it. */
  function Phase(stage: nat): nat {
    if stage == 0 then 0 else if stage >= 5 then 1 else if stage == 4 then 2 else 3
  }

  /** Each event fires in its own phase only, and firing is what advances the phase. */
  lemma {:induction false} EventsFollowPhase(s: Registers, i: Input)
    requires Consistent(s) && i.Edge?
    ensures Fires(s, i, Issue) ==> Phase(Stage(s)) == 0
    ensures Fires(s, i, Receive) ==> Phase(Stage(s)) == 1
    ensures Fires(s, i, Accept) ==> Phase(Stage(s)) == 2
    ensures Fires(s, i, Ack) ==> Phase(Stage(s)) == 3
    ensures Phase(Stage(Tick(s, i)))
         == (Phase(Stage(s)) + One(Fires(s, i, Cycle(Phase(Stage(s)))))) % 4
  {
    match Stage(s)
    case 0 =>
    case 8 =>
    case 7 =>
    case 6 =>
    case 5 =>
    case 4 =>
    case 3 =>
    case 2 =>
    case _ =>
  }

  /** One instant produces at most one event, and it is the one the phase calls for. */
  lemma {:induction false} AtMostOneEvent(s: Registers, i: Input)
    requires Consistent(s) && i.Edge?
    ensures Events(s, i) == When(Fires(s, i, Cycle(Phase(Stage(s)))), Cycle(Phase(Stage(s))))
  {
    EventsFollowPhase(s, i);
  }

  /** Over every run since the last reset the events are issue, receive, accept, ack,
      issue, ... in that order, and how far the last cycle got is where the token is. */
  lemma {:induction false} TraceFollowsCycle(inputs: seq<Input>)
    ensures var y := Reached(inputs);
            && (forall n :: 0 <= n < |y.trace| ==> y.trace[n] == Cycle(n))
            && |y.trace| % 4 == Phase(Stage(y.regs))
  {
    if inputs == [] {
    } else {
      var before, i := Reached(inputs[..|inputs| - 1]), inputs[|inputs| - 1];
      TraceFollowsCycle(inputs[..|inputs| - 1]);
      if i.Edge? {
        ReachedIsConsistent(inputs[..|inputs| - 1]);
        PhaseOfTrace(before, i);
      }
    }
  }

  lemma {:induction false} NextEvent(y: System, i: Input)
    requires Consistent(y.regs) && i.Edge?
    ensures var e := Cycle(Phase(Stage(y.regs)));
      Next(y, i).trace == y.trace + When(Fires(y.regs, i, e), e)
  {
    AtMostOneEvent(y.regs, i);
    EventsFollowPhase(y.regs, i);
  }

  lemma {:induction false} CycleGoesOn(trace: seq<Event>, phase: nat, fires: bool)
    requires forall n :: 0 <= n < |trace| ==> trace[n] == Cycle(n)
    requires |trace| % 4 == phase
    ensures var longer := trace + When(fires, Cycle(phase));
      && (forall n :: 0 <= n < |longer| ==> longer[n] == Cycle(n)) && |longer| % 4 == (phase + One(fires)) % 4
  {
    assert Cycle(|trace|) == Cycle(phase);
  }

  lemma {:induction false} PhaseOfTrace(y: System, i: Input)
    requires Consistent(y.regs) && i.Edge?
    requires forall n :: 0 <= n < |y.trace| ==> y.trace[n] == Cycle(n)
    requires |y.trace| % 4 == Phase(Stage(y.regs))
    ensures forall n :: 0 <= n < |Next(y, i).trace| ==> Next(y, i).trace[n] == Cycle(n)
    ensures |Next(y, i).trace| % 4 == Phase(Stage(Next(y, i).regs))
  {
    EventsFollowPhase(y.regs, i);
    NextEvent(y, i);
    var phase := Phase(Stage(y.regs));
    CycleGoesOn(y.trace, phase, Fires(y.regs, i, Cycle(phase)));
  }

  function Count(trace: seq<Event>, e: Event): nat {
    if trace == [] then 0 else Count(trace[..|trace| - 1], e) + One(trace[|trace| - 1] == e)
  }

  lemma {:induction false} QuarterStep(n: nat)
    ensures (n + 4) / 4 == (n + 3) / 4 + One(Cycle(n) == Issue)
    ensures (n + 3) / 4 == (n + 2) / 4 + One(Cycle(n) == Receive)
    ensures (n + 2) / 4 == (n + 1) / 4 + One(Cycle(n) == Accept)
    ensures (n + 1) / 4 == n / 4 + One(Cycle(n) == Ack)
  {
  }

  lemma {:induction false} CountInCycle(trace: seq<Event>)
    requires forall n :: 0 <= n < |trace| ==> trace[n] == Cycle(n)
    ensures Count(trace, Issue) == (|trace| + 3) / 4 && Count(trace, Receive) == (|trace| + 2) / 4
    ensures Count(trace, Accept) == (|trace| + 1) / 4 && Count(trace, Ack) == |trace| / 4
  {
    if trace == [] {
    } else {
      var n := |trace| - 1;
      CountInCycle(trace[..n]);
      QuarterStep(n);
    }
  }

  /** Nothing is lost or invented: issued = received + requests crossing, received =
      accepted + pending, accepted = acknowledged + acknowledgements crossing. */
  lemma {:induction false} Conservation(inputs: seq<Input>)
    ensures var y := Reached(inputs);
            var s := y.regs;
            && Count(y.trace, Issue) == Count(y.trace, Receive)
               + One(TokenAt(s, 8)) + One(TokenAt(s, 7)) + One(TokenAt(s, 6)) + One(TokenAt(s, 5))
            && Count(y.trace, Receive) == Count(y.trace, Accept) + One(s.a.pending)
            && Count(y.trace, Accept) == Count(y.trace, Ack)
               + One(TokenAt(s, 3)) + One(TokenAt(s, 2)) + One(TokenAt(s, 1))
            && Count(y.trace, Issue) == Count(y.trace, Ack) + One(s.o.waiting)
  {
    ReachedIsConsistent(inputs);
    TraceFollowsCycle(inputs);
    CountInCycle(Reached(inputs).trace);
    TokensOfPhase(Reached(inputs).regs);
    QuarterCounts(|Reached(inputs).trace|);
  }

  lemma {:induction false} QuarterCounts(n: nat)
    ensures (n + 3) / 4 == (n + 2) / 4 + One(n % 4 == 1) && (n + 2) / 4 == (n + 1) / 4 + One(n % 4 == 2)
    ensures (n + 1) / 4 == n / 4 + One(n % 4 == 3) && (n + 3) / 4 == n / 4 + One(n % 4 != 0)
  {
  }

  lemma {:induction false} TokensOfPhase(s: Registers)
    requires Consistent(s)
    ensures One(TokenAt(s, 8)) + One(TokenAt(s, 7)) + One(TokenAt(s, 6)) + One(TokenAt(s, 5))
         == One(Phase(Stage(s)) == 1)
    ensures One(s.a.pending) == One(Phase(Stage(s)) == 2)
    ensures One(TokenAt(s, 3)) + One(TokenAt(s, 2)) + One(TokenAt(s, 1)) == One(Phase(Stage(s)) == 3)
    ensures One(s.o.waiting) == One(Phase(Stage(s)) != 0)
  {
  }

  // ---------------------------------------------------------------- progress

  /** Handovers still to come, counting the Avalon domain's own way out of reset. */
  function Remaining(s: Registers): nat {
    Stage(s) + One(s.o.waiting && !s.a.avlResetNa)
  }

  /** The instant moves the token: the domain that holds it steps, and for `pending`
      the environment accepts. */
  predicate Helps(s: Registers, i: Input) {
    i.Edge? &&
    match Stage(s)
    case 4 => i.avlStep && i.acceptReady
    case 5 | 6 | 7 => i.avlStep
    case _ => i.oStep
  }

  /** While waiting and without a reset, the rank never rises, falls by exactly one
      whenever the holding domain steps, and reaches zero only through the
      acknowledgement. */
  lemma {:induction false} RankFalls(s: Registers, i: Input)
    requires Consistent(s) && s.o.waiting && i.Edge?
    ensures Remaining(Tick(s, i)) <= Remaining(s) <= 9
    ensures s.a.avlResetNa ==> Remaining(Tick(s, i)) == Remaining(s) - One(Helps(s, i))
    ensures Helps(s, i) ==> Remaining(Tick(s, i)) < Remaining(s)
    ensures Fires(s, i, Ack) <==> !Tick(s, i).o.waiting
    ensures Remaining(s) > 0
  {
  }

  function RunFrom(s: Registers, inputs: seq<Input>): Registers
    decreases inputs
  {
    if inputs == [] then s else RunFrom(Tick(s, inputs[0]), inputs[1..])
  }

  predicate AcksWithin(s: Registers, inputs: seq<Input>)
    decreases inputs
  {
    inputs != [] && (Fires(s, inputs[0], Ack) || AcksWithin(Tick(s, inputs[0]), inputs[1..]))
  }

  /** A stretch without a reset in which each domain steps at least once, the Avalon one
      while the environment accepts.  Any number of other steps may be mixed in. */
  predicate Fair(round: seq<Input>) {
    && (forall i :: i in round ==> i.Edge?)
    && (exists i :: i in round && i.Edge? && i.oStep)
    && (exists i :: i in round && i.Edge? && i.avlStep && i.acceptReady)
  }

  function Flatten(rounds: seq<seq<Input>>): seq<Input> {
    if rounds == [] then [] else rounds[0] + Flatten(rounds[1..])
  }

  lemma {:induction false} StretchMakesProgress(s: Registers, inputs: seq<Input>)
    requires Consistent(s) && s.o.waiting && forall i :: i in inputs ==> i.Edge?
    requires !AcksWithin(s, inputs)
    ensures var end := RunFrom(s, inputs);
            && Consistent(end) && end.o.waiting && Remaining(end) <= Remaining(s)
            && ((exists i :: i in inputs && Helps(s, i)) ==> Remaining(end) < Remaining(s))
    decreases inputs
  {
    if inputs == [] {
    } else {
      var s' := Tick(s, inputs[0]);
      TickKeepsConsistent(s, inputs[0]);
      RankFalls(s, inputs[0]);
      StretchMakesProgress(s', inputs[1..]);
      if Remaining(s') == Remaining(s) {
        assert Stage(s') == Stage(s);
        forall i | i in inputs && Helps(s, i) ensures i in inputs[1..] && Helps(s', i) {
          assert i != inputs[0];
        }
      }
    }
  }

  lemma {:induction false} AcksWithinConcat(s: Registers, a: seq<Input>, b: seq<Input>)
    ensures AcksWithin(s, a + b) <==> AcksWithin(s, a) || AcksWithin(RunFrom(s, a), b)
    decreases a
  {
    if a == [] {
      assert a + b == b;
    } else {
      assert (a + b)[1..] == a[1..] + b;
      AcksWithinConcat(Tick(s, a[0]), a[1..], b);
    }
  }

  /** A waiting request is acknowledged within `Remaining`, hence within nine, fair rounds. */
  lemma {:induction false} FairRoundsAcknowledge(s: Registers, rounds: seq<seq<Input>>)
    requires Consistent(s) && s.o.waiting && |rounds| >= Remaining(s)
    requires forall r :: r in rounds ==> Fair(r)
    ensures AcksWithin(s, Flatten(rounds))
    decreases rounds
  {
    RankFalls(s, Edge(false, false, false, false));
    assert Fair(rounds[0]);
    AcksWithinConcat(s, rounds[0], Flatten(rounds[1..]));
    if !AcksWithin(s, rounds[0]) {
      var o :| o in rounds[0] && o.Edge? && o.oStep;
      var a :| a in rounds[0] && a.Edge? && a.avlStep && a.acceptReady;
      assert Helps(s, o) || Helps(s, a);
      StretchMakesProgress(s, rounds[0]);
      FairRoundsAcknowledge(RunFrom(s, rounds[0]), rounds[1..]);
    }
  }

  /** In every reachable state with a request waiting, nine fair rounds bring the acknowledgement. */
  lemma {:induction false} EveryRequestIsAcknowledged(inputs: seq<Input>, rounds: seq<seq<Input>>)
    requires Reached(inputs).regs.o.waiting && |rounds| >= 9
    requires forall r :: r in rounds ==> Fair(r)
    ensures AcksWithin(Reached(inputs).regs, Flatten(rounds))
  {
    ReachedIsConsistent(inputs);
    RankFalls(Reached(inputs).regs, Edge(false, false, false, false));
    FairRoundsAcknowledge(Reached(inputs).regs, rounds);
  }

  // ---------------------------------------------------------------- the processes

  class Transport {
    var o: Output
    var a: Avalon

    function Regs(): Registers reads this {
      Registers(o, a)
    }

    /** A domain in reset holds every register at zero. */
    ghost predicate HeldInReset() reads this {
      (!o.oResetNa ==> o == OUTPUT_CLEARED) && (!a.avlResetNa ==> a == AVALON_CLEARED)
    }

    /** The reset input is low when the design starts. */
    constructor ()
      ensures Regs() == Reached([]).regs && HeldInReset()
    {
      o, a := OUTPUT_CLEARED, AVALON_CLEARED;
    }

    /** The reset input falls: both domains are cleared at once. */
    method AssertReset()
      modifies this
      ensures Regs() == Tick(old(Regs()), Reset) && HeldInReset()
    {
      o, a := o.(oResetNa := false), a.(avlResetNa := false);
      OutputReset();
      AvalonReset();
    }

    method OutputReset()
      modifies `o
      ensures o == OUTPUT_CLEARED.(oResetNa := old(o.oResetNa))
    {
      o := o.(oReadPre := false, oRead := false, oReadackSync := false,
              oReadackSync2 := false, oReadack := false, waiting := false);
    }

    method AvalonReset()
      modifies `a
      ensures a == AVALON_CLEARED.(avlResetNa := old(a.avlResetNa))
    {
      a := a.(avlReadack := false, avlReadSync := false, avlReadSync2 := false,
              avlReadPulse := false, pending := false);
    }

    /** The output process at an enabled edge: every right-hand side reads `was`. */
    method OutputProcess(avlReadack: bool, schedule: bool)
      requires o.oResetNa
      modifies `o
      ensures o == OutputTick(old(o), avlReadack, schedule)
    {
      var was := o;
      o := o.(oRead := was.oReadPre);
      o := o.(oReadackSync := avlReadack);
      o := o.(oReadackSync2 := was.oReadackSync);
      o := o.(oReadack := was.oReadackSync != was.oReadackSync2);
      if !was.waiting && schedule {
        o := o.(oReadPre := !was.oReadPre);
        o := o.(waiting := true);
      } else if was.waiting && was.oReadack {
        o := o.(waiting := false);
      }
    }

    /** The Avalon process at an enabled edge: the later assignment to `pending` wins. */
    method AvalonProcess(oRead: bool, acceptReady: bool)
      requires a.avlResetNa
      modifies `a
      ensures a == AvalonTick(old(a), oRead, acceptReady)
    {
      var was := a;
      a := a.(avlReadSync := oRead);
      a := a.(avlReadSync2 := was.avlReadSync);
      a := a.(avlReadPulse := was.avlReadSync != was.avlReadSync2);
      if was.avlReadPulse {
        a := a.(pending := true);
      }
      if was.pending && acceptReady {
        a := a.(avlReadack := !was.avlReadack);
        a := a.(pending := false);
      }
    }

    /** The output domain at a rising edge.  Its reset flag rises after the process ran, so
        its first step only leaves reset. */
    method OutputEdge(oStep: bool, avlReadack: bool, schedule: bool)
      requires HeldInReset()
      modifies `o
      ensures o == if oStep then OutputTick(old(o), avlReadack, schedule) else old(o)
    {
      if !o.oResetNa {
        OutputReset();
      } else if oStep {
        OutputProcess(avlReadack, schedule);
      }
      if oStep {
        o := o.(oResetNa := true);
      }
    }

    /** The Avalon domain at a rising edge. */
    method AvalonEdge(avlStep: bool, oRead: bool, acceptReady: bool)
      requires HeldInReset()
      modifies `a
      ensures a == if avlStep then AvalonTick(old(a), oRead, acceptReady) else old(a)
    {
      if !a.avlResetNa {
        AvalonReset();
      } else if avlStep {
        AvalonProcess(oRead, acceptReady);
      }
      if avlStep {
        a := a.(avlResetNa := true);
      }
    }

    /** One rising edge of the common clock, with the four event outputs during it. */
    method RisingEdge(oStep: bool, avlStep: bool, schedule: bool, acceptReady: bool)
      returns (issue: bool, receive: bool, accept: bool, ack: bool)
      requires HeldInReset()
      modifies this
      ensures Regs() == Tick(old(Regs()), Edge(oStep, avlStep, schedule, acceptReady))
      ensures var i := Edge(oStep, avlStep, schedule, acceptReady);
              && issue == Fires(old(Regs()), i, Issue) && receive == Fires(old(Regs()), i, Receive)
              && accept == Fires(old(Regs()), i, Accept) && ack == Fires(old(Regs()), i, Ack)
      ensures HeldInReset()
    {
      issue := oStep && o.oResetNa && schedule && !o.waiting;
      receive := avlStep && a.avlResetNa && a.avlReadPulse;
      accept := avlStep && a.avlResetNa && a.pending && acceptReady;
      ack := oStep && o.oResetNa && o.oReadack;
      var oRead, avlReadack := o.oRead, a.avlReadack;
      OutputEdge(oStep, avlReadack, schedule);
      AvalonEdge(avlStep, oRead, acceptReady);
    }
  }
}
