/** The request transport seen from outside: one token that is handed over eight times.

    `Move` and `Seen` say when a request is taken, received, accepted and acknowledged
    without a register.  The two clocked processes are proved to show the same events over
    every run, and requests are proved to be served for ever while a schedule is held. */
module RequestToken {

  import opened RequestTransport

  /** Which domains have left reset, and how many handovers the request in flight has
      still before it; none when there is no request. */
  datatype Token = Token(outputLive: bool, avalonLive: bool, handovers: nat)

  /** A live output domain takes a scheduled request when none is in flight.  Eight
      handovers follow, each at a step of the domain whose turn it is: one of the output
      domain, four of the Avalon domain, the last of them with `acceptReady`, and three of
      the output domain. */
  function Move(t: Token, i: Input): Token {
    match i
    case Reset => Token(false, false, 0)
    case Edge(oStep, avlStep, schedule, acceptReady) =>
      Token(t.outputLive || oStep, t.avalonLive || avlStep,
        match t.handovers
        case 0 => if t.outputLive && oStep && schedule then 8 else 0
        case 7 | 6 | 5 => if t.avalonLive && avlStep then t.handovers - 1 else t.handovers
        case 4 => if t.avalonLive && avlStep && acceptReady then 3 else 4
        case _ => if oStep then t.handovers - 1 else t.handovers)
  }

  /** The event that goes with a move, if any. */
  function Seen(t: Token, i: Input): seq<Event> {
    if i.Reset? then []
    else if t.handovers == 0 then When(t.outputLive && i.oStep && i.schedule, Issue)
    else if t.handovers == 5 then When(t.avalonLive && i.avlStep, Receive)
    else if t.handovers == 4 then When(t.avalonLive && i.avlStep && i.acceptReady, Accept)
    else if t.handovers == 1 then When(i.oStep, Ack)
    else []
  }

  // ---------------------------------------------------------------- the registers do the same

  function TokenOf(s: Registers): Token {
    Token(s.o.oResetNa, s.a.avlResetNa, Stage(s))
  }

  lemma {:induction false} SameMove(s: Registers, i: Input)
    requires Consistent(s)
    ensures TokenOf(Tick(s, i)) == Move(TokenOf(s), i)
  {
    if s.o.waiting {
      SameMoveInFlight(s, i);
    }
  }

  lemma {:induction false} SameMoveInFlight(s: Registers, i: Input)
    requires Consistent(s) && s.o.waiting
    ensures TokenOf(Tick(s, i)) == Move(TokenOf(s), i)
  {
    match Stage(s)
    case 8 =>
    case 7 =>
    case 6 =>
    case 5 =>
    case 4 =>
    case 3 =>
    case 2 =>
    case _ =>
  }

  lemma {:induction false} SameEvents(s: Registers, i: Input)
    requires Consistent(s)
    ensures Events(s, i) == Seen(TokenOf(s), i)
  {
    if i.Edge? {
      AtMostOneEvent(s, i);
      EventsFollowPhase(s, i);
    }
  }

  /** The token and the events since the last reset, after a run that began in reset. */
  function TokenRun(inputs: seq<Input>): (Token, seq<Event>) {
    if inputs == [] then (Token(false, false, 0), [])
    else
      var (t, trace) := TokenRun(inputs[..|inputs| - 1]);
      var i := inputs[|inputs| - 1];
      (Move(t, i), if i.Reset? then [] else trace + Seen(t, i))
  }

  /** Over every run, the design and the simpler machine are at the same point and show
      the same events. */
  lemma {:induction false} RunRefinesToken(inputs: seq<Input>)
    ensures TokenRun(inputs) == (TokenOf(Reached(inputs).regs), Reached(inputs).trace)
  {
    if inputs == [] {
    } else {
      var front, i := inputs[..|inputs| - 1], inputs[|inputs| - 1];
      RunRefinesToken(front);
      ReachedIsConsistent(front);
      SameMove(Reached(front).regs, i);
      SameEvents(Reached(front).regs, i);
    }
  }

  // ---------------------------------------------------------------- a schedule is issued

  function CountAfter(inputs: seq<Input>, e: Event): nat {
    Count(TokenRun(inputs).1, e)
  }

  lemma {:induction false} RunSnoc(inputs: seq<Input>, i: Input, e: Event)
    ensures TokenRun(inputs + [i]).0 == Move(TokenRun(inputs).0, i)
    ensures i.Edge? ==> CountAfter(inputs + [i], e) == CountAfter(inputs, e) + One(Seen(TokenRun(inputs).0, i) == [e])
  {
    assert (inputs + [i])[..|inputs|] == inputs;
    var trace, seen := TokenRun(inputs).1, Seen(TokenRun(inputs).0, i);
    if i.Edge? && seen != [] {
      assert (trace + seen)[..|trace|] == trace;
    } else if i.Edge? {
      assert trace + seen == trace;
    }
  }

  predicate Schedules(i: Input) {
    i.Edge? && i.oStep && i.schedule
  }

  lemma {:induction false} TwoStepsIssue(inputs: seq<Input>, first: Input, second: Input)
    requires TokenRun(inputs).0.handovers == 0 && Schedules(first) && Schedules(second)
    ensures TokenRun(inputs + [first] + [second]).0.handovers > 0
    ensures CountAfter(inputs + [first] + [second], Issue) == CountAfter(inputs, Issue) + 1
  {
    RunSnoc(inputs, first, Issue);
    RunSnoc(inputs + [first], second, Issue);
  }

  lemma {:induction false} ReachedAsToken(inputs: seq<Input>, e: Event)
    ensures Reached(inputs).regs.o.waiting <==> TokenRun(inputs).0.handovers > 0
    ensures TokenRun(inputs).0.handovers <= 8
    ensures Count(Reached(inputs).trace, e) == CountAfter(inputs, e)
  {
    RunRefinesToken(inputs);
    ReachedIsConsistent(inputs);
    TokensOfPhase(Reached(inputs).regs);
  }

  /** Two steps of the output domain with a schedule issue exactly one request from any
      quiet state; the first of them may be needed to leave reset. */
  lemma {:induction false} ScheduleIsIssued(inputs: seq<Input>, first: Input, second: Input)
    requires !Reached(inputs).regs.o.waiting && Schedules(first) && Schedules(second)
    ensures var end := inputs + [first, second];
      Reached(end).regs.o.waiting && Count(Reached(end).trace, Issue) == Count(Reached(inputs).trace, Issue) + 1
  {
    var end := inputs + [first] + [second];
    assert end == inputs + [first, second];
    ReachedAsToken(inputs, Issue);
    ReachedAsToken(end, Issue);
    TwoStepsIssue(inputs, first, second);
  }

  // ---------------------------------------------------------------- and served, again and again

  /** Helpful instants still needed before the next acknowledgement when a schedule is
      held: leaving reset, issuing, and the handovers. */
  function Due(t: Token): nat {
    if t.handovers == 0 then 10 + One(!t.outputLive) else t.handovers + One(!t.avalonLive)
  }

  predicate Furthers(t: Token, i: Input) {
    i.Edge? &&
    match t.handovers
    case 4 => i.avlStep && i.acceptReady
    case 5 | 6 | 7 => i.avlStep
    case _ => i.oStep
  }

  lemma {:induction false} DueFalls(t: Token, i: Input)
    requires t.handovers <= 8 && i.Edge? && i.schedule
    ensures Move(t, i).handovers <= 8
    ensures Seen(t, i) != [Ack] ==> Due(Move(t, i)) + One(Furthers(t, i)) <= Due(t)
    ensures Seen(t, i) != [Ack] && Due(Move(t, i)) == Due(t) ==> Move(t, i).handovers == t.handovers
    ensures 1 <= Due(t) <= 11
  {
  }

  /** A fair round in which the schedule is held at every instant. */
  predicate FairAndScheduled(round: seq<Input>) {
    Fair(round) && forall i :: i in round && i.Edge? ==> i.schedule
  }

  /** Over a stretch with the schedule held, acknowledgements only accumulate; without one,
      what is due never grows, and stays the same only if no instant furthers it. */
  lemma {:induction false} StretchServes(inputs: seq<Input>, stretch: seq<Input>)
    requires forall i :: i in stretch ==> i.Edge? && i.schedule
    ensures CountAfter(inputs + stretch, Ack) >= CountAfter(inputs, Ack)
    ensures var t, t' := TokenRun(inputs).0, TokenRun(inputs + stretch).0;
      CountAfter(inputs + stretch, Ack) == CountAfter(inputs, Ack) ==>
        && Due(t') <= Due(t)
        && (Due(t') == Due(t) ==> t'.handovers == t.handovers && forall i :: i in stretch ==> !Furthers(t, i))
  {
    if stretch == [] {
      assert inputs + stretch == inputs;
    } else {
      var front, i := stretch[..|stretch| - 1], stretch[|stretch| - 1];
      assert stretch == front + [i] && inputs + stretch == inputs + front + [i];
      StretchServes(inputs, front);
      RunSnoc(inputs + front, i, Ack);
      ReachedAsToken(inputs + front, Ack);
      DueFalls(TokenRun(inputs + front).0, i);
    }
  }

  lemma {:induction false} RoundServes(inputs: seq<Input>, round: seq<Input>)
    requires FairAndScheduled(round)
    ensures 11 * CountAfter(inputs + round, Ack) - Due(TokenRun(inputs + round).0)
         >= 11 * CountAfter(inputs, Ack) - Due(TokenRun(inputs).0) + 1
  {
    var t := TokenRun(inputs).0;
    var o :| o in round && o.Edge? && o.oStep;
    var a :| a in round && a.Edge? && a.avlStep && a.acceptReady;
    assert Furthers(t, o) || Furthers(t, a);
    StretchServes(inputs, round);
    ReachedAsToken(inputs, Ack);
    ReachedAsToken(inputs + round, Ack);
    DueFalls(t, o);
    DueFalls(TokenRun(inputs + round).0, o);
  }

  lemma {:induction false} RoundsServe(inputs: seq<Input>, rounds: seq<seq<Input>>)
    requires forall r :: r in rounds ==> FairAndScheduled(r)
    ensures 11 * CountAfter(inputs + Flatten(rounds), Ack) - Due(TokenRun(inputs + Flatten(rounds)).0)
         >= 11 * CountAfter(inputs, Ack) - Due(TokenRun(inputs).0) + |rounds|
    decreases rounds
  {
    if rounds == [] {
      assert inputs + Flatten(rounds) == inputs;
    } else {
      assert inputs + Flatten(rounds) == inputs + rounds[0] + Flatten(rounds[1..]);
      RoundServes(inputs, rounds[0]);
      RoundsServe(inputs + rounds[0], rounds[1..]);
    }
  }

  /** While the schedule is held, every eleven fair rounds bring at least one more
      acknowledgement, from every reachable state. */
  lemma {:induction false} AcksKeepComing(inputs: seq<Input>, rounds: seq<seq<Input>>)
    requires forall r :: r in rounds ==> FairAndScheduled(r)
    ensures Count(Reached(inputs + Flatten(rounds)).trace, Ack) >= Count(Reached(inputs).trace, Ack) + |rounds| / 11
  {
    RoundsServe(inputs, rounds);
    ReachedAsToken(inputs, Ack);
    ReachedAsToken(inputs + Flatten(rounds), Ack);
    var end := TokenRun(inputs + Flatten(rounds)).0;
    assert 1 <= Due(end) && Due(TokenRun(inputs).0) <= 11;
  }
}
