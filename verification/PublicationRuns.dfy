/** Series of publication runs as they are carried out, each with its own budget of API calls. */
module PublicationRuns {
  import opened Options
  import opened Releases
  import opened ReleaseState
  import opened Publication
  import opened ReleaseSafety

  /** As many API calls as a run for this order can ever make. */
  function Enough(o: Order): nat {
    40 + 2 * |o.candidate.files|
  }

  /** How one run of a history ended, and what that says about the state after it. */
  ghost predicate RunEnded(s: Remote, t: Remote, o: Order, repository: string, r: Result<Unit>) {
    match r
    case Ok(_) => Ready(s, o, repository) && t == EndState(s, o, repository)
    case Refused => !Ready(s, o, repository) && t == EndState(s, o, repository)
    case Cut => CutRun(s, t, o, repository)
  }

  ghost predicate RunsEnded(states: seq<Remote>, orders: seq<Order>, results: seq<Result<Unit>>, repository: string) {
    && |states| == |orders| + 1 && |results| == |orders|
    && forall i :: 0 <= i < |orders| ==> RunEnded(states[i], states[i + 1], orders[i], repository, results[i])
  }

  lemma {:induction false} HistorySnoc(states: seq<Remote>, orders: seq<Order>, results: seq<Result<Unit>>,
                                       repository: string, o: Order, r: Result<Unit>, t: Remote)
    requires History(states, orders, repository) && RunsEnded(states, orders, results, repository)
    requires Proper(o) && Effect(states[|orders|], t, o, repository) && RunEnded(states[|orders|], t, o, repository, r)
    ensures History(states + [t], orders + [o], repository)
      && RunsEnded(states + [t], orders + [o], results + [r], repository)
  {
    var longer, all, ends := states + [t], orders + [o], results + [r];
    forall i | 0 <= i < |all|
      ensures Proper(all[i]) && Effect(longer[i], longer[i + 1], all[i], repository)
      ensures RunEnded(longer[i], longer[i + 1], all[i], repository, ends[i])
    {
      if i < |orders| {
        assert Proper(orders[i]) && Effect(states[i], states[i + 1], orders[i], repository);
        assert RunEnded(states[i], states[i + 1], orders[i], repository, results[i]);
      }
    }
  }

  method RunOne(github: GitHub, o: Order, budget: nat) returns (r: Result<Unit>)
    requires Proper(o)
    modifies github
    ensures RunEnded(old(github.remote), github.remote, o, github.repository, r)
    ensures Effect(old(github.remote), github.remote, o, github.repository)
    ensures budget >= Enough(o) ==> !r.Cut?
  {
    github.budget := budget;
    r := github.Publish(o);
  }

  /** Runs the orders one after the other. Whatever the budgets, the states in between are a
      history, so all that is proved of histories holds of them. */
  method RunAll(github: GitHub, orders: seq<Order>, budgets: seq<nat>)
    returns (results: seq<Result<Unit>>, ghost states: seq<Remote>)
    requires |budgets| == |orders| && github.remote.feeds == map[]
    requires forall i :: 0 <= i < |orders| ==> Proper(orders[i])
    modifies github
    ensures History(states, orders, github.repository) && RunsEnded(states, orders, results, github.repository)
    ensures states[0] == old(github.remote) && states[|orders|] == github.remote
    ensures Safe(github.remote) && Keeps(old(github.remote), github.remote)
  {
    results, states := [], [github.remote];
    for k := 0 to |orders|
      invariant History(states, orders[..k], github.repository)
        && RunsEnded(states, orders[..k], results, github.repository)
      invariant states[0] == old(github.remote) && states[k] == github.remote
    {
      var r := RunOne(github, orders[k], budgets[k]);
      HistorySnoc(states, orders[..k], results, github.repository, orders[k], r, github.remote);
      assert orders[..k + 1] == orders[..k] + [orders[k]];
      results, states := results + [r], states + [github.remote];
    }
    assert orders[..|orders|] == orders;
    HistoryIsSafe(states, orders, github.repository, |orders|);
    NothingIsLost(states, orders, github.repository, 0, |orders|);
  }

  /** Repeats a publication while it is cut. It ends where one uninterrupted run would have ended,
      whether that succeeds or refuses, as soon as one attempt may make enough calls; it succeeds
      exactly from a state that is ready, and may be repeated further when every attempt was cut. */
  method RunUntilDone(github: GitHub, o: Order, budgets: seq<nat>) returns (r: Result<Unit>)
    requires Proper(o)
    modifies github
    ensures !r.Cut? ==> github.remote == EndState(old(github.remote), o, github.repository)
    ensures !r.Cut? ==> (r.Ok? <==> Ready(old(github.remote), o, github.repository))
    ensures r.Cut? ==> CutRun(old(github.remote), github.remote, o, github.repository)
    ensures (exists i :: 0 <= i < |budgets| && budgets[i] >= Enough(o)) ==> !r.Cut?
  {
    r := Cut;
    for k := 0 to |budgets|
      invariant r.Cut? && CutRun(old(github.remote), github.remote, o, github.repository)
      invariant forall i :: 0 <= i < k ==> budgets[i] < Enough(o)
    {
      r := RunOne(github, o, budgets[k]);
      if !r.Cut? { return; }
    }
  }

  // ---------------------------------------------------------------- a refused run that leaves a trace

  const SAMPLE_REVISION := "0123456789abcdef0123456789abcdef01234567"

  /** A small alpha candidate that is in order. */
  function SampleOrder(repository: string): Order {
    var files := map[
      Database(Alpha) := Bytes([]), FeedZip(Alpha) := FeedFile(Alpha, "0.2.1", map[], []),
      Receipt := Validated("0.2.1", SAMPLE_REVISION, []), Evidence := Bytes([])
    ];
    Order(Candidate("0.2.1", SAMPLE_REVISION, repository, {}, files), Alpha, SAMPLE_REVISION, true)
  }

  lemma {:induction false} SampleRevision()
    ensures IsRevision(SAMPLE_REVISION)
  {
  }

  lemma {:induction false} SampleInOrder(repository: string)
    ensures Allowed(SampleOrder(repository), repository) && Proper(SampleOrder(repository))
  {
    SampleRevision();
  }

  /** The version's Git tag is at another revision and has no release: every alpha run refuses,
      but the repository has an empty release more than before. */
  method StrayRelease(o: Order, repository: string, elsewhere: string)
    returns (r: Result<Unit>, before: Remote, after: Remote)
    requires Allowed(o, repository) && Proper(o) && o.channel == Alpha && elsewhere != o.sourceRevision
    ensures r.Refused? && after != before
    ensures before == Remote(map[Version(o.candidate.version) := Entry(elsewhere, None)], map[])
    ensures after == Remote(map[Version(o.candidate.version) := Entry(elsewhere, Some(EMPTY))], map[])
  {
    var tag := Version(o.candidate.version);
    before := Remote(map[tag := Entry(elsewhere, None)], map[]);
    var github := new GitHub(repository, before, Enough(o));
    r := github.Publish(o);
    after := github.remote;
    assert before.entries[tag := Entry(elsewhere, Some(EMPTY))] == map[tag := Entry(elsewhere, Some(EMPTY))];
  }

  method SampleStrayRelease(repository: string) returns (r: Result<Unit>, before: Remote, after: Remote)
    ensures r.Refused?
    ensures before == Remote(map[Version("0.2.1") := Entry("", None)], map[])
    ensures after == Remote(map[Version("0.2.1") := Entry("", Some(EMPTY))], map[])
  {
    SampleInOrder(repository);
    r, before, after := StrayRelease(SampleOrder(repository), repository, "");
  }
}
