/** The greedy scheduler that merges the feature, seam and surface point groups.

    At each output index it takes the next point of the group that is furthest behind
    its proportional share.  Shares are compared in exact arithmetic: every quantity is
    multiplied by the number of outputs. */
module Interleave {

  datatype Outcome<T> = Merged(points: seq<T>) | NothingAvailable

  /** One number per group. */
  datatype Triple = Triple(a: int, b: int, c: int) {
    function At(g: int): int
      requires 0 <= g < 3
    {
      if g == 0 then a else if g == 1 then b else c
    }

    function Sum(): int { a + b + c }

    function Bump(g: int): (t: Triple)
      requires 0 <= g < 3
      ensures t.Sum() == Sum() + 1 && forall i :: 0 <= i < 3 ==> t.At(i) == if i == g then At(i) + 1 else At(i)
    {
      Triple(if g == 0 then a + 1 else a, if g == 1 then b + 1 else b, if g == 2 then c + 1 else c)
    }
  }

  /** `count` times the amount by which group `g` is behind its share after `k` outputs. */
  function Deficit(totals: Triple, emitted: Triple, k: int, count: int, g: int): int
    requires 0 <= g < 3
  {
    totals.At(g) * k - emitted.At(g) * count
  }

  /** The key the scheduler maximises: the deficit the group would have after one more output. */
  function Lag(totals: Triple, emitted: Triple, k: int, count: int, g: int): int
    requires 0 <= g < 3
  {
    totals.At(g) * (k + 1) - emitted.At(g) * count
  }

  predicate Beats(totals: Triple, emitted: Triple, k: int, count: int, g: int, h: int)
    requires 0 <= g < 3 && 0 <= h < 3
  {
    var x, y := Lag(totals, emitted, k, count, g), Lag(totals, emitted, k, count, h);
    x > y || (x == y && g <= h)
  }

  /** `g` has the largest lag of all groups, the first of them on a tie. */
  predicate FurthestBehind(totals: Triple, emitted: Triple, k: int, count: int, g: int) {
    0 <= g < 3 && forall h :: 0 <= h < 3 ==> Beats(totals, emitted, k, count, g, h)
  }

  predicate InBand(totals: Triple, emitted: Triple, k: int, count: int, g: int)
    requires 0 <= g < 3
  {
    -2 * count <= 3 * Deficit(totals, emitted, k, count, g) && 6 * Deficit(totals, emitted, k, count, g) <= 5 * count
  }

  /** `g` still has points and comes first among the groups that do. */
  predicate BestAvailable(totals: Triple, emitted: Triple, k: int, count: int, g: int) {
    && 0 <= g < 3 && emitted.At(g) < totals.At(g)
    && forall h :: 0 <= h < 3 && emitted.At(h) < totals.At(h) ==> Beats(totals, emitted, k, count, g, h)
  }

  /** Every group within its band: two thirds of a point ahead to five sixths behind. */
  ghost predicate Near(totals: Triple, emitted: Triple, k: int, count: int) {
    forall g :: 0 <= g < 3 ==> InBand(totals, emitted, k, count, g)
  }

  ghost predicate Within(emitted: Triple, totals: Triple) {
    forall g :: 0 <= g < 3 ==> 0 <= emitted.At(g) <= totals.At(g)
  }

  lemma {:induction false} DeficitStep(totals: Triple, emitted: Triple, k: int, count: int, g: int, sel: int)
    requires 0 <= g < 3 && 0 <= sel < 3
    ensures Lag(totals, emitted, k, count, g) == Deficit(totals, emitted, k, count, g) + totals.At(g)
    ensures Deficit(totals, emitted.Bump(sel), k + 1, count, g)
         == Lag(totals, emitted, k, count, g) - (if g == sel then count else 0)
  {
  }

  lemma {:induction false} LagsAddUp(totals: Triple, emitted: Triple, k: int, count: int)
    requires totals.Sum() == count && emitted.Sum() == k
    ensures Lag(totals, emitted, k, count, 0) + Lag(totals, emitted, k, count, 1)
          + Lag(totals, emitted, k, count, 2) == count
  {
    assert totals.a * (k + 1) + totals.b * (k + 1) + totals.c * (k + 1) == totals.Sum() * (k + 1);
    assert emitted.a * count + emitted.b * count + emitted.c * count == emitted.Sum() * count;
  }

  /** The arithmetic of one choice: `x` is the largest lag, `y` and `z` the others. */
  lemma {:induction false} Bands(x: int, y: int, z: int, n: int)
    requires x + y + z == n && x >= y && x >= z && -2 * n <= 3 * y && -2 * n <= 3 * z
    ensures 3 * x >= n && 6 * y <= 5 * n && 6 * z <= 5 * n && -2 * n <= 3 * (x - n)
  {
  }

  lemma {:induction false} LagBounds(totals: Triple, emitted: Triple, k: int, count: int, g: int)
    requires 0 <= g < 3 && Within(emitted, totals) && Near(totals, emitted, k, count) && totals.Sum() == count
    ensures -2 * count <= 3 * Lag(totals, emitted, k, count, g)
    ensures 6 * Lag(totals, emitted, k, count, g) <= 11 * count
  {
    assert InBand(totals, emitted, k, count, g);
    DeficitStep(totals, emitted, k, count, g, g);
    assert 0 <= emitted.At(0) <= totals.At(0) && 0 <= emitted.At(1) <= totals.At(1)
      && 0 <= emitted.At(2) <= totals.At(2);
  }

  lemma {:induction false} ChosenLag(totals: Triple, emitted: Triple, k: int, count: int, sel: int, h: int)
    requires FurthestBehind(totals, emitted, k, count, sel) && 0 <= h < 3
    ensures Lag(totals, emitted, k, count, h) <= Lag(totals, emitted, k, count, sel)
  {
    assert Beats(totals, emitted, k, count, sel, h);
  }

  /** Bounds on the lag of group `g` when `sel` is the one furthest behind. */
  lemma {:induction false} ChoiceBounds(totals: Triple, emitted: Triple, k: int, count: int, sel: int, g: int)
    requires Within(emitted, totals) && Near(totals, emitted, k, count)
    requires totals.Sum() == count && emitted.Sum() == k
    requires FurthestBehind(totals, emitted, k, count, sel) && 0 <= g < 3
    ensures 3 * Lag(totals, emitted, k, count, sel) >= count
    ensures g != sel ==> 6 * Lag(totals, emitted, k, count, g) <= 5 * count
  {
    LagsAddUp(totals, emitted, k, count);
    var p, q := (sel + 1) % 3, (sel + 2) % 3;
    ChosenLag(totals, emitted, k, count, sel, p);
    ChosenLag(totals, emitted, k, count, sel, q);
    LagBounds(totals, emitted, k, count, p);
    LagBounds(totals, emitted, k, count, q);
    var x, y := Lag(totals, emitted, k, count, sel), Lag(totals, emitted, k, count, p);
    var z := Lag(totals, emitted, k, count, q);
    assert x + y + z == count by {
      assert if sel == 0 then p == 1 && q == 2 else if sel == 1 then p == 2 && q == 0 else p == 0 && q == 1;
    }
    Bands(x, y, z, count);
  }

  /** The furthest-behind group still has points, and taking one keeps every group in its band. */
  lemma {:induction false} GreedyKeepsNear(totals: Triple, emitted: Triple, k: int, count: int, sel: int)
    requires Within(emitted, totals) && Near(totals, emitted, k, count)
    requires totals.Sum() == count && emitted.Sum() == k && 0 <= k < count
    requires FurthestBehind(totals, emitted, k, count, sel)
    ensures emitted.At(sel) < totals.At(sel)
    ensures Near(totals, emitted.Bump(sel), k + 1, count)
  {
    ChoiceBounds(totals, emitted, k, count, sel, sel);
    assert emitted.At(sel) <= totals.At(sel);
    NoLagLeft(totals.At(sel), emitted.At(sel), k, count);
    var emitted', k' := emitted.Bump(sel), k + 1;
    forall g | 0 <= g < 3 ensures InBand(totals, emitted', k', count, g) {
      DeficitStep(totals, emitted, k, count, g, sel);
      LagBounds(totals, emitted, k, count, g);
      ChoiceBounds(totals, emitted, k, count, sel, g);
    }
  }

  lemma {:induction false} NoLagLeft(total: int, emitted: int, k: int, count: int)
    requires 0 <= emitted <= total && k < count
    ensures emitted == total ==> total * (k + 1) - emitted * count <= 0
  {
    if emitted == total {
      assert total * (k + 1) - total * count == total * (k + 1 - count);
    }
  }

  // ---------------------------------------------------------------- the merge

  /** How many of the first `k` choices were group `g`. */
  function Tally(choices: seq<int>, k: nat, g: int): nat
    requires k <= |choices|
  {
    if k == 0 then 0 else Tally(choices, k - 1, g) + (if choices[k - 1] == g then 1 else 0)
  }

  function Tallies(choices: seq<int>, k: nat): Triple
    requires k <= |choices|
  {
    Triple(Tally(choices, k, 0), Tally(choices, k, 1), Tally(choices, k, 2))
  }

  lemma {:induction false} TallyPrefix(a: seq<int>, b: seq<int>, k: nat, g: int)
    requires k <= |a|
    ensures Tally(a + b, k, g) == Tally(a, k, g)
  {
    if k == 0 {
    } else {
      TallyPrefix(a, b, k - 1, g);
    }
  }

  /** Choice `k` is a group, and `x` is its next point after those chosen before. */
  predicate TakesNext<T(==)>(groups: seq<seq<T>>, choices: seq<int>, k: nat, x: T)
    requires |groups| == 3 && k < |choices|
  {
    var g := choices[k];
    0 <= g < 3 && Tally(choices, k, g) < |groups[g]| && x == groups[g][Tally(choices, k, g)]
  }

  /** `points` takes from each group its next point, in the group's own order. */
  ghost predicate MergeOf<T>(groups: seq<seq<T>>, choices: seq<int>, points: seq<T>)
    requires |groups| == 3
  {
    |points| == |choices| && forall k :: 0 <= k < |choices| ==> TakesNext(groups, choices, k, points[k])
  }

  function Totals<T>(groups: seq<seq<T>>): Triple
    requires |groups| == 3
  {
    Triple(|groups[0]|, |groups[1]|, |groups[2]|)
  }

  /** Every choice is the furthest-behind group among all three, not only the available
      ones, and every prefix of the output is within one point of proportional. */
  ghost predicate Proportional(totals: Triple, choices: seq<int>, count: nat) {
    && (forall k {:trigger FurthestBehind(totals, Tallies(choices, k), k, count, choices[k])} :: 0 <= k < |choices| ==>
          FurthestBehind(totals, Tallies(choices, k), k, count, choices[k]))
    && (forall k {:trigger Near(totals, Tallies(choices, k), k, count)} :: 0 <= k <= |choices| ==>
          Near(totals, Tallies(choices, k), k, count))
  }

  lemma {:induction false} TalliesSnoc(choices: seq<int>, sel: int)
    requires 0 <= sel < 3
    ensures forall k :: 0 <= k <= |choices| ==> Tallies(choices + [sel], k) == Tallies(choices, k)
    ensures Tallies(choices + [sel], |choices| + 1) == Tallies(choices, |choices|).Bump(sel)
  {
    forall k | 0 <= k <= |choices| ensures Tallies(choices + [sel], k) == Tallies(choices, k) {
      TallyPrefix(choices, [sel], k, 0);
      TallyPrefix(choices, [sel], k, 1);
      TallyPrefix(choices, [sel], k, 2);
    }
    assert Tallies(choices + [sel], |choices|) == Tallies(choices, |choices|);
  }

  lemma {:induction false} MergeSnoc<T>(groups: seq<seq<T>>, choices: seq<int>, points: seq<T>, sel: int)
    requires |groups| == 3 && MergeOf(groups, choices, points)
    requires 0 <= sel < 3 && Tally(choices, |choices|, sel) < |groups[sel]|
    ensures MergeOf(groups, choices + [sel], points + [groups[sel][Tally(choices, |choices|, sel)]])
  {
    var more, points' := choices + [sel], points + [groups[sel][Tally(choices, |choices|, sel)]];
    forall k | 0 <= k < |more| ensures TakesNext(groups, more, k, points'[k]) {
      TallyPrefix(choices, [sel], k, more[k]);
      if k < |choices| { assert TakesNext(groups, choices, k, points[k]); }
    }
  }

  lemma {:induction false} FurthestSnoc(totals: Triple, choices: seq<int>, count: nat, sel: int, k: nat)
    requires Proportional(totals, choices, count) && k <= |choices|
    requires FurthestBehind(totals, Tallies(choices, |choices|), |choices|, count, sel)
    ensures FurthestBehind(totals, Tallies(choices + [sel], k), k, count, (choices + [sel])[k])
  {
    TalliesSnoc(choices, sel);
    assert Tallies(choices + [sel], k) == Tallies(choices, k);
    if k < |choices| { assert FurthestBehind(totals, Tallies(choices, k), k, count, choices[k]); }
  }

  lemma {:induction false} NearSnoc(totals: Triple, choices: seq<int>, count: nat, sel: int, k: nat)
    requires Proportional(totals, choices, count) && k <= |choices| + 1 && 0 <= sel < 3
    requires Near(totals, Tallies(choices, |choices|).Bump(sel), |choices| + 1, count)
    ensures Near(totals, Tallies(choices + [sel], k), k, count)
  {
    TalliesSnoc(choices, sel);
    if k <= |choices| {
      assert Near(totals, Tallies(choices, k), k, count);
      assert Tallies(choices + [sel], k) == Tallies(choices, k);
    }
  }

  lemma {:induction false} ProportionalSnoc(totals: Triple, choices: seq<int>, count: nat, sel: int)
    requires Proportional(totals, choices, count)
    requires FurthestBehind(totals, Tallies(choices, |choices|), |choices|, count, sel)
    requires Near(totals, Tallies(choices, |choices|).Bump(sel), |choices| + 1, count)
    ensures Proportional(totals, choices + [sel], count)
  {
    var more := choices + [sel];
    forall k | 0 <= k < |more| ensures FurthestBehind(totals, Tallies(more, k), k, count, more[k]) {
      FurthestSnoc(totals, choices, count, sel, k);
    }
    forall k | 0 <= k <= |more| ensures Near(totals, Tallies(more, k), k, count) {
      NearSnoc(totals, choices, count, sel, k);
    }
  }

  /** The first of the available groups that is furthest behind, or -1. */
  method Select(totals: Triple, emitted: Triple, k: int, count: int) returns (sel: int)
    ensures -1 <= sel < 3
    ensures sel == -1 <==> forall g :: 0 <= g < 3 ==> emitted.At(g) >= totals.At(g)
    ensures sel >= 0 ==> BestAvailable(totals, emitted, k, count, sel)
  {
    sel := -1;
    for g := 0 to 3
      invariant -1 <= sel < g
      invariant sel == -1 <==> forall h :: 0 <= h < g ==> emitted.At(h) >= totals.At(h)
      invariant sel >= 0 ==> emitted.At(sel) < totals.At(sel)
      invariant sel >= 0 ==>
        forall h :: 0 <= h < g && emitted.At(h) < totals.At(h) ==> Beats(totals, emitted, k, count, sel, h)
    {
      if emitted.At(g) < totals.At(g)
         && (sel == -1 || Lag(totals, emitted, k, count, g) > Lag(totals, emitted, k, count, sel)) {
        sel := g;
      }
    }
  }

  /** Restricting the choice to the available groups never changes it. */
  lemma {:induction false} AvailabilityIsFree(totals: Triple, emitted: Triple, k: int, count: int, sel: int)
    requires Within(emitted, totals) && Near(totals, emitted, k, count)
    requires totals.Sum() == count && emitted.Sum() == k && 0 <= k < count
    requires BestAvailable(totals, emitted, k, count, sel)
    ensures FurthestBehind(totals, emitted, k, count, sel)
  {
    var best := Furthest(totals, emitted, k, count);
    GreedyKeepsNear(totals, emitted, k, count, best);
    assert Beats(totals, emitted, k, count, best, sel);
  }

  lemma {:induction false} Furthest(totals: Triple, emitted: Triple, k: int, count: int) returns (best: int)
    ensures FurthestBehind(totals, emitted, k, count, best)
  {
    best := 0;
    if !Beats(totals, emitted, k, count, best, 1) { best := 1; }
    if !Beats(totals, emitted, k, count, best, 2) { best := 2; }
  }

  ghost predicate Underway<T>(groups: seq<seq<T>>, choices: seq<int>, points: seq<T>, emitted: Triple, count: nat)
    requires |groups| == 3
  {
    && MergeOf(groups, choices, points)
    && emitted == Tallies(choices, |choices|) && Within(emitted, Totals(groups)) && emitted.Sum() == |choices|
    && (Totals(groups).Sum() == count ==> Proportional(Totals(groups), choices, count))
  }

  lemma {:induction false} OneOutput<T>(groups: seq<seq<T>>, choices: seq<int>, points: seq<T>, emitted: Triple,
                                        count: nat, sel: int)
    requires |groups| == 3 && |choices| < count && Underway(groups, choices, points, emitted, count)
    requires BestAvailable(Totals(groups), emitted, |choices|, count, sel)
    ensures 0 <= emitted.At(sel) < |groups[sel]|
    ensures Underway(groups, choices + [sel], points + [groups[sel][emitted.At(sel)]], emitted.Bump(sel), count)
  {
    var totals, k := Totals(groups), |choices|;
    assert emitted.At(sel) == Tally(choices, k, sel) && totals.At(sel) == |groups[sel]|;
    MergeSnoc(groups, choices, points, sel);
    TalliesSnoc(choices, sel);
    assert Within(emitted.Bump(sel), totals) by {
      assert forall g :: 0 <= g < 3 ==> 0 <= emitted.At(g) <= totals.At(g);
    }
    if totals.Sum() == count {
      assert Near(totals, Tallies(choices, k), k, count);
      AvailabilityIsFree(totals, emitted, k, count, sel);
      GreedyKeepsNear(totals, emitted, k, count, sel);
      ProportionalSnoc(totals, choices, count, sel);
    }
  }

  lemma {:induction false} NoneLeft(totals: Triple, emitted: Triple)
    requires Within(emitted, totals)
    ensures (forall g :: 0 <= g < 3 ==> emitted.At(g) >= totals.At(g)) <==> emitted == totals
    ensures emitted.Sum() <= totals.Sum()
    ensures emitted.Sum() == totals.Sum() <==> emitted == totals
  {
    assert emitted.At(0) <= totals.At(0) && emitted.At(1) <= totals.At(1) && emitted.At(2) <= totals.At(2);
    if forall g :: 0 <= g < 3 ==> emitted.At(g) >= totals.At(g) {
      assert emitted.At(0) >= totals.At(0) && emitted.At(1) >= totals.At(1) && emitted.At(2) >= totals.At(2);
    }
  }

  lemma {:induction false} NoneYet<T>(groups: seq<seq<T>>, count: nat)
    requires |groups| == 3
    ensures Underway(groups, [], [], Triple(0, 0, 0), count)
  {
    var totals := Totals(groups);
    NearAtStart(totals, count);
    assert Tallies([], 0) == Triple(0, 0, 0);
    forall k | 0 <= k <= 0 ensures Near(totals, Tallies([], k), k, count) {
      assert Tallies([], k) == Triple(0, 0, 0);
    }
  }

  lemma {:induction false} NearAtStart(totals: Triple, count: int)
    requires count >= 0
    ensures Near(totals, Triple(0, 0, 0), 0, count)
  {
    forall g | 0 <= g < 3 ensures Deficit(totals, Triple(0, 0, 0), 0, count, g) == 0 {}
  }

  lemma {:induction false} AllMerged<T>(groups: seq<seq<T>>, choices: seq<int>, points: seq<T>, emitted: Triple,
                                        count: nat)
    requires |groups| == 3 && Totals(groups).Sum() <= count == |choices|
      && Underway(groups, choices, points, emitted, count)
    ensures Totals(groups).Sum() == count && MergeOf(groups, choices, points)
    ensures Tallies(choices, count) == Totals(groups) && Proportional(Totals(groups), choices, count)
  {
    NoneLeft(Totals(groups), emitted);
  }

  /** No group is left although points are still missing. */
  lemma {:induction false} RanOut<T>(groups: seq<seq<T>>, choices: seq<int>, points: seq<T>, emitted: Triple,
                                     count: nat)
    requires |groups| == 3 && |choices| < count && Underway(groups, choices, points, emitted, count)
    requires forall g :: 0 <= g < 3 ==> emitted.At(g) >= Totals(groups).At(g)
    ensures Totals(groups).Sum() < count
  {
    NoneLeft(Totals(groups), emitted);
  }

  method NothingEmitted<T>(groups: seq<seq<T>>, count: nat)
    returns (points: seq<T>, emitted: Triple, ghost choices: seq<int>)
    requires |groups| == 3
    ensures |points| <= count && Underway(groups, choices, points, emitted, count)
  {
    points, emitted, choices := [], Triple(0, 0, 0), [];
    NoneYet(groups, count);
  }

  /** The group of output `k`, or -1 when all are used up. */
  method NextGroup<T>(groups: seq<seq<T>>, ghost choices: seq<int>, ghost points: seq<T>, emitted: Triple, k: nat,
                      count: nat)
    returns (sel: int)
    requires |groups| == 3 && |choices| == k < count && Underway(groups, choices, points, emitted, count)
    ensures sel == -1 ==> Totals(groups).Sum() < count
    ensures sel != -1 ==>
      && 0 <= sel < 3 && 0 <= emitted.At(sel) < |groups[sel]|
      && Underway(groups, choices + [sel], points + [groups[sel][emitted.At(sel)]], emitted.Bump(sel), count)
  {
    sel := Select(Totals(groups), emitted, k, count);
    if sel == -1 {
      RanOut(groups, choices, points, emitted, count);
    } else {
      OneOutput(groups, choices, points, emitted, count, sel);
    }
  }

  /** The merge succeeds exactly when the groups hold `count` points; it is then a merge of
      all of them, in their own orders, and proportional at every prefix. */
  method Interleave<T>(groups: seq<seq<T>>, count: nat) returns (r: Outcome<T>, ghost choices: seq<int>)
    requires |groups| == 3 && Totals(groups).Sum() <= count
    ensures r.Merged? <==> Totals(groups).Sum() == count
    ensures r.Merged? ==>
      && |choices| == count && MergeOf(groups, choices, r.points)
      && Tallies(choices, count) == Totals(groups)
      && Proportional(Totals(groups), choices, count)
  {
    var points, emitted;
    points, emitted, choices := NothingEmitted(groups, count);
    while |points| < count
      invariant |points| <= count && Underway(groups, choices, points, emitted, count)
      decreases count - |points|
    {
      var sel := NextGroup(groups, choices, points, emitted, |points|, count);
      if sel == -1 {
        return NothingAvailable, choices;
      }
      points := points + [groups[sel][emitted.At(sel)]];
      choices := choices + [sel];
      emitted := emitted.Bump(sel);
    }
    AllMerged(groups, choices, points, emitted, count);
    return Merged(points), choices;
  }

  /** Read out: after any prefix, no group is a whole point away from its exact share. */
  lemma {:induction false} WithinOnePoint(totals: Triple, choices: seq<int>, count: nat, k: nat, g: int)
    requires Proportional(totals, choices, count) && k <= |choices| && 0 <= g < 3 && count > 0
    ensures totals.At(g) * k - Tally(choices, k, g) * count < count
    ensures Tally(choices, k, g) * count - totals.At(g) * k < count
  {
    assert Near(totals, Tallies(choices, k), k, count);
    assert InBand(totals, Tallies(choices, k), k, count, g);
  }
}
