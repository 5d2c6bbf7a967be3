/** The particle cloud in numbers: shares, attempts, rounding, the order of a group and the choice
    of the scheduler. */
module SampledCloud {
  import opened Interleave
  import opened Sorting
  import opened ParticleCloud

  // ---------------------------------------------------------------- rounding

  /** The nearest integer, the even one of two that are equally near. */
  predicate Nearest(r: real, n: int) {
    -0.5 < r - n as real < 0.5 || ((r - n as real == 0.5 || r - n as real == -0.5) && n % 2 == 0)
  }

  lemma {:induction false} RoundExactly(r: real, n: int)
    ensures n == Round(r) <==> Nearest(r, n)
  {
    var f := r.Floor;
    assert f as real <= r < f as real + 1.0;
    if n > f + 1 {
      assert n as real >= f as real + 2.0;
    } else if n < f {
      assert n as real <= f as real - 1.0;
    }
  }

  /** `c` is the integer nearest to `r` between two bounds. */
  predicate NearestWithin(lowest: int, highest: int, r: real, c: int) {
    if r <= lowest as real then c == lowest else if r >= highest as real then c == highest else Nearest(r, c)
  }

  lemma {:induction false} ClampExactly(lowest: int, highest: int, r: real)
    requires lowest <= highest
    ensures NearestWithin(lowest, highest, r, Clamp(lowest, highest, Round(r)))
  {
    var n := Round(r);
    RoundExactly(r, n);
    if n > highest {
      assert n as real >= highest as real + 1.0;
    } else if n < lowest {
      assert n as real <= lowest as real - 1.0;
    }
    Bounded(lowest, highest, r, n);
  }

  lemma {:induction false} Bounded(lowest: int, highest: int, r: real, n: int)
    requires Nearest(r, n)
    ensures r <= lowest as real ==> n <= lowest
    ensures r >= highest as real ==> n >= highest
  {
    if n > lowest {
      assert n as real >= lowest as real + 1.0;
    }
    if n < highest {
      assert n as real <= highest as real - 1.0;
    }
  }

  /** A coordinate is written as the nearest 1/32767 of those between -1 and 1. */
  lemma {:induction false} QuantizedExactly(p: Point)
    ensures NearestWithin(-32767, 32767, p.x * 32767.0, Quantized(p).x)
    ensures NearestWithin(-32767, 32767, p.y * 32767.0, Quantized(p).y)
    ensures NearestWithin(-32767, 32767, p.z * 32767.0, Quantized(p).z)
  {
    ClampExactly(-32767, 32767, p.x * 32767.0);
    ClampExactly(-32767, 32767, p.y * 32767.0);
    ClampExactly(-32767, 32767, p.z * 32767.0);
  }

  /** The grid spreads -1 to 1 over the cells 0 to 1023. */
  lemma {:induction false} CellExactly(p: Point)
    ensures NearestWithin(0, 1023, (p.x + 1.0) * 511.5, CellOf(p).x)
    ensures NearestWithin(0, 1023, (p.y + 1.0) * 511.5, CellOf(p).y)
    ensures NearestWithin(0, 1023, (p.z + 1.0) * 511.5, CellOf(p).z)
    ensures GRID_BITS == 10
  {
    ClampExactly(0, 1023, (p.x + 1.0) * 511.5);
    ClampExactly(0, 1023, (p.y + 1.0) * 511.5);
    ClampExactly(0, 1023, (p.z + 1.0) * 511.5);
  }

  // ---------------------------------------------------------------- shares and attempts

  lemma {:induction false} FifthRounded(count: nat, n: int)
    ensures n == Round(count as real * 0.2) ==> -5 <= 10 * n - 2 * count <= 5
    ensures n == Round(count as real * 0.08) ==> -50 <= 100 * n - 8 * count <= 50
  {
    RoundExactly(count as real * 0.2, n);
    RoundExactly(count as real * 0.08, n);
    assert (10 * n - 2 * count) as real == 10.0 * (n as real - count as real * 0.2);
    assert (100 * n - 8 * count) as real == 100.0 * (n as real - count as real * 0.08);
  }

  /** A fifth of the points are for feature edges, 8 in 100 for seams where there are any, each to the
      nearest point, and the others for the surface. */
  lemma {:induction false} SharesInNumbers(count: nat, hasSeams: bool)
    ensures var (edges, seams, surface) := Shares(count, hasSeams);
      && edges + seams + surface == count && -5 <= 10 * edges - 2 * count <= 5
      && (hasSeams ==> -50 <= 100 * seams - 8 * count <= 50) && (!hasSeams ==> seams == 0)
  {
    FifthRounded(count, Round(count as real * 0.2));
    FifthRounded(count, Round(count as real * 0.08));
  }

  /** A draw whose place is free: not seen before, and not drawn earlier. */
  ghost predicate New(create: nat -> Point, seen: set<Xyz>, n: nat) {
    Quantized(create(n)) !in seen && forall m: nat :: m < n ==> Quantized(create(m)) != Quantized(create(n))
  }

  /** The place is that of one of the first `n` draws. */
  ghost predicate DrawnBefore(create: nat -> Point, n: nat, place: Xyz) {
    exists m: nat :: m < n && Quantized(create(m)) == place
  }

  lemma {:induction false} DrawnStep(create: nat -> Point, n: nat, place: Xyz)
    ensures DrawnBefore(create, n + 1, place) <==> DrawnBefore(create, n, place) || Quantized(create(n)) == place
  {
    if DrawnBefore(create, n, place) {
      var m: nat :| m < n && Quantized(create(m)) == place;
      assert m < n + 1;
    }
    if Quantized(create(n)) == place { assert n < n + 1; }
  }

  lemma {:induction false} PlacesStep(create: nat -> Point, seen: set<Xyz>, n: nat)
    ensures seen + Places(Kept(create, seen, n + 1)) == seen + Places(Kept(create, seen, n)) + {Quantized(create(n))}
  {
    KeptStep(create, seen, n + 1);
    OneMorePlace(Kept(create, seen, n), create(n));
  }

  /** Every place drawn so far was seen before or is kept, and nothing else is kept. */
  lemma {:induction false} PlacesKept(create: nat -> Point, seen: set<Xyz>, n: nat, place: Xyz)
    ensures place in seen + Places(Kept(create, seen, n)) <==> place in seen || DrawnBefore(create, n, place)
  {
    if n == 0 {
    } else {
      PlacesKept(create, seen, n - 1, place);
      PlacesStep(create, seen, n - 1);
      DrawnStep(create, n - 1, place);
    }
  }

  /** The group grows by exactly the draws whose place is free, in the order they are drawn. */
  lemma {:induction false} KeptExactly(create: nat -> Point, seen: set<Xyz>, n: nat)
    ensures Kept(create, seen, 0) == []
    ensures Kept(create, seen, n + 1)
      == Kept(create, seen, n) + if New(create, seen, n) then [create(n)] else []
    ensures Repeats(create, seen, n) <==> !New(create, seen, n)
  {
    PlacesKept(create, seen, n, Quantized(create(n)));
    KeptStep(create, seen, n + 1);
  }

  /** A source gives up at its first draw without a free place from the ten-thousandth, and from the
      hundredth for each point asked for, while points are still missing. */
  lemma {:induction false} GivesUpExactly(create: nat -> Point, seen: set<Xyz>, amount: nat)
    ensures GivesUp(create, seen, amount) <==>
      exists n: nat :: n >= 9_999 && n + 1 >= 100 * amount && !New(create, seen, n)
        && |Kept(create, seen, n)| < amount
  {
    forall n: nat
      ensures GivesUpAt(create, seen, amount, n) <==>
        n >= 9_999 && n + 1 >= 100 * amount && !New(create, seen, n) && |Kept(create, seen, n)| < amount
    {
      KeptExactly(create, seen, n);
    }
  }

  // ---------------------------------------------------------------- the order of a group

  /** Lists of numbers as tuples are compared: the first difference decides. */
  predicate LexLe(a: seq<int>, b: seq<int>)
    decreases a
  {
    a == [] || (b != [] && (a[0] < b[0] || (a[0] == b[0] && LexLe(a[1..], b[1..]))))
  }

  function KeyTuple(k: SortKey): seq<int> {
    [k.reversed, k.code, k.palette, k.flags]
  }

  lemma {:induction false} KeyLeIsLex(a: SortKey, b: SortKey)
    ensures KeyLe(a, b) <==> LexLe(KeyTuple(a), KeyTuple(b))
  {
    var s, t := KeyTuple(a), KeyTuple(b);
    assert s[1..] == [a.code, a.palette, a.flags] && t[1..] == [b.code, b.palette, b.flags];
    assert s[1..][1..] == [a.palette, a.flags] && t[1..][1..] == [b.palette, b.flags];
    assert s[1..][1..][1..] == [a.flags] && t[1..][1..][1..] == [b.flags];
    LexFirst([a.flags], [b.flags]);
    LexFirst([a.palette, a.flags], [b.palette, b.flags]);
    LexFirst([a.code, a.palette, a.flags], [b.code, b.palette, b.flags]);
    LexFirst(s, t);
  }

  lemma {:induction false} LexFirst(a: seq<int>, b: seq<int>)
    requires a != [] && b != []
    ensures LexLe(a, b) <==> a[0] < b[0] || (a[0] == b[0] && LexLe(a[1..], b[1..]))
  {
  }

  /** A group is sorted by reversed code, code, palette and flags, in this order. */
  lemma {:induction false} GroupInOrder(group: seq<Point>, i: nat, j: nat)
    requires i < j < |group|
    ensures var s := Progressive(group);
      LexLe(KeyTuple(ProgressiveKey(s[i])), KeyTuple(ProgressiveKey(s[j])))
  {
    PointOrder();
    SortSorts(PointLe, group);
    var s := Progressive(group);
    assert PointLe(s[i], s[j]);
    KeyLeIsLex(ProgressiveKey(s[i]), ProgressiveKey(s[j]));
  }

  // ---------------------------------------------------------------- the scheduler's choice

  /** Output `k` comes from the group that is furthest behind its share of `k + 1` outputs, the first
      of them if there are several. */
  lemma {:induction false} ChoiceExactly(totals: Triple, choices: seq<int>, count: nat, k: nat, h: int)
    requires Proportional(totals, choices, count) && k < |choices| && 0 <= h < 3
    ensures 0 <= choices[k] < 3
    ensures var g := choices[k];
      var behind := totals.At(g) * (k + 1) - Tally(choices, k, g) * count;
      var other := totals.At(h) * (k + 1) - Tally(choices, k, h) * count;
      if h < g then other < behind else other <= behind
  {
    var g := choices[k];
    assert FurthestBehind(totals, Tallies(choices, k), k, count, g);
    assert Beats(totals, Tallies(choices, k), k, count, g, h);
    assert Tallies(choices, k).At(h) == Tally(choices, k, h) && Tallies(choices, k).At(g) == Tally(choices, k, g);
  }
}
