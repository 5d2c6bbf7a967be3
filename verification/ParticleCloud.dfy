/** The particle cloud compiler: unique sampling, progressive ordering, interleaving and
    the duplicate check of the encoder.

    Random sampling is an arbitrary stream of points; coordinates are reals and `round`
    rounds halves to even. */
module ParticleCloud {
  import opened Interleave
  import opened Morton
  import opened Sorting

  datatype Xyz = Xyz(x: int, y: int, z: int)

  datatype Point = Point(x: real, y: real, z: real, palette: int, flags: int, exact: int, glow: int)

  datatype Cloud = Cloud(points: seq<Point>) | TooManyDuplicates | NothingLeft

  function Round(r: real): int {
    var f := r.Floor;
    var d := r - f as real;
    if d < 0.5 then f else if d > 0.5 then f + 1 else if f % 2 == 0 then f else f + 1
  }

  function Clamp(lo: int, hi: int, v: int): (c: int)
    requires lo <= hi
    ensures lo <= c <= hi && (lo <= v <= hi ==> c == v)
  {
    if v < lo then lo else if v > hi then hi else v
  }

  /** The coordinates written to the file. */
  function Quantized(p: Point): Xyz {
    Xyz(Clamp(-32767, 32767, Round(p.x * 32767.0)),
        Clamp(-32767, 32767, Round(p.y * 32767.0)),
        Clamp(-32767, 32767, Round(p.z * 32767.0)))
  }

  // ---------------------------------------------------------------- sampling

  predicate Apart(a: Point, b: Point) { Quantized(a) != Quantized(b) }

  function Places(s: seq<Point>): set<Xyz> { set p | p in s :: Quantized(p) }

  /** Of the first `n` points drawn, those whose place was not taken yet. */
  function Kept(create: nat -> Point, seen: set<Xyz>, n: nat): seq<Point> {
    if n == 0 then []
    else
      var kept := Kept(create, seen, n - 1);
      if Quantized(create(n - 1)) in seen + Places(kept) then kept else kept + [create(n - 1)]
  }

  predicate Repeats(create: nat -> Point, seen: set<Xyz>, n: nat) {
    Quantized(create(n)) in seen + Places(Kept(create, seen, n))
  }

  function Limit(amount: nat): (limit: nat)
    ensures limit >= 10_000 && limit >= 100 * amount
  {
    if amount * 100 > 10_000 then amount * 100 else 10_000
  }

  /** Draw `n` is at the limit of attempts, finds its place taken, and the group is not full yet. */
  predicate GivesUpAt(create: nat -> Point, seen: set<Xyz>, amount: nat, n: nat) {
    n + 1 >= Limit(amount) && |Kept(create, seen, n)| < amount && Repeats(create, seen, n)
  }

  ghost predicate GivesUp(create: nat -> Point, seen: set<Xyz>, amount: nat) {
    exists n: nat :: GivesUpAt(create, seen, amount, n)
  }

  ghost predicate GoesOn(create: nat -> Point, seen: set<Xyz>, amount: nat, n: nat) {
    forall m: nat :: m < n ==> !GivesUpAt(create, seen, amount, m)
  }

  lemma {:induction false} NextDraw(create: nat -> Point, seen: set<Xyz>, amount: nat, n: nat)
    requires GoesOn(create, seen, amount, n) && |Kept(create, seen, n)| < amount
    ensures if Repeats(create, seen, n) then Kept(create, seen, n + 1) == Kept(create, seen, n)
      else Kept(create, seen, n + 1) == Kept(create, seen, n) + [create(n)]
    ensures if Repeats(create, seen, n) && n + 1 >= Limit(amount) then GivesUp(create, seen, amount)
      else GoesOn(create, seen, amount, n + 1)
  {
    if Repeats(create, seen, n) && n + 1 >= Limit(amount) { assert GivesUpAt(create, seen, amount, n); }
  }

  lemma {:induction false} Full(create: nat -> Point, seen: set<Xyz>, amount: nat, n: nat)
    requires GoesOn(create, seen, amount, n) && |Kept(create, seen, n)| >= amount
    ensures !GivesUp(create, seen, amount)
  {
    forall m: nat ensures !GivesUpAt(create, seen, amount, m) {
      if m >= n { KeptGrows(create, seen, n, m); }
    }
  }

  lemma {:induction false} KeptGrows(create: nat -> Point, seen: set<Xyz>, m: nat, n: nat)
    requires m <= n
    ensures |Kept(create, seen, m)| <= |Kept(create, seen, n)|
    decreases n
  {
    if m == n {
    } else {
      KeptGrows(create, seen, m, n - 1);
    }
  }

  ghost predicate DrawnFrom(create: nat -> Point, group: seq<Point>) {
    forall p :: p in group ==> exists n: nat :: create(n) == p
  }

  lemma {:induction false} OneMorePlace(group: seq<Point>, point: Point)
    ensures Places(group + [point]) == Places(group) + {Quantized(point)}
  {
  }

  lemma {:induction false} OneMoreKept(group: seq<Point>, point: Point)
    requires Quantized(point) !in Places(group) && Pairwise(Apart, group)
    ensures Pairwise(Apart, group + [point])
  {
    TakenPlace(group, point);
    PairwiseSnoc(Apart, group, point);
  }

  lemma {:induction false} OneMoreDraw(create: nat -> Point, group: seq<Point>, n: nat)
    requires DrawnFrom(create, group)
    ensures DrawnFrom(create, group + [create(n)])
  {
  }

  lemma {:induction false} KeptStep(create: nat -> Point, seen: set<Xyz>, n: nat)
    requires n > 0
    ensures var kept := Kept(create, seen, n - 1);
      Kept(create, seen, n)
      == if Quantized(create(n - 1)) in seen + Places(kept) then kept else kept + [create(n - 1)]
  {
  }

  /** The points kept so far have places that are new and differ from each other. */
  ghost predicate Distinct(create: nat -> Point, seen: set<Xyz>, group: seq<Point>) {
    Pairwise(Apart, group) && Places(group) !! seen && DrawnFrom(create, group)
  }

  lemma {:induction false} OneMoreDistinct(create: nat -> Point, seen: set<Xyz>, group: seq<Point>, n: nat)
    requires Distinct(create, seen, group) && Quantized(create(n)) !in seen + Places(group)
    ensures Distinct(create, seen, group + [create(n)])
  {
    OneMorePlace(group, create(n));
    OneMoreKept(group, create(n));
    OneMoreDraw(create, group, n);
  }

  lemma {:induction false} DistinctStep(create: nat -> Point, seen: set<Xyz>, n: nat)
    requires n > 0 && Distinct(create, seen, Kept(create, seen, n - 1))
    ensures Distinct(create, seen, Kept(create, seen, n))
  {
    var kept := Kept(create, seen, n - 1);
    KeptStep(create, seen, n);
    if Quantized(create(n - 1)) !in seen + Places(kept) { OneMoreDistinct(create, seen, kept, n - 1); }
  }

  /** The places of what is kept are new and differ from each other. */
  lemma {:induction false} KeptApart(create: nat -> Point, seen: set<Xyz>, n: nat)
    ensures Distinct(create, seen, Kept(create, seen, n))
  {
    if n == 0 {
    } else {
      KeptApart(create, seen, n - 1);
      DistinctStep(create, seen, n);
    }
  }

  /** One attempt: the point drawn, unless its place is taken. */
  method Attempt(seen: set<Xyz>, amount: nat, create: nat -> Point, group: seq<Point>, taken: set<Xyz>, n: nat)
    returns (more: seq<Point>, places: set<Xyz>)
    requires group == Kept(create, seen, n) && taken == seen + Places(group) && |group| < amount
    requires GoesOn(create, seen, amount, n)
    ensures more == Kept(create, seen, n + 1) && places == seen + Places(more) && |group| <= |more| <= |group| + 1
    ensures if |more| == |group| && n + 1 >= Limit(amount) then GivesUp(create, seen, amount)
      else GoesOn(create, seen, amount, n + 1)
  {
    NextDraw(create, seen, amount, n);
    var point := create(n);
    if Quantized(point) in taken { return group, taken; }
    OneMorePlace(group, point);
    return group + [point], taken + {Quantized(point)};
  }

  method DrawUnique(seen: set<Xyz>, amount: nat, create: nat -> Point)
    returns (ok: bool, group: seq<Point>, taken: set<Xyz>, next: nat)
    ensures ok <==> !GivesUp(create, seen, amount)
    ensures ok ==> |group| == amount
    ensures group == Kept(create, seen, next) && taken == seen + Places(group)
  {
    group, taken, next := [], seen, 0;
    var limit := Limit(amount);
    while |group| < amount
      invariant |group| <= amount && group == Kept(create, seen, next) && taken == seen + Places(group)
      invariant GoesOn(create, seen, amount, next)
      decreases amount - |group|, if next < limit then limit - next else 0
    {
      var size := |group|;
      group, taken := Attempt(seen, amount, create, group, taken, next);
      next := next + 1;
      if |group| == size && next >= limit { return false, group, taken, next; }
    }
    Full(create, seen, amount, next);
    return true, group, taken, next;
  }

  /** Draws points until the group holds `amount`, skipping any whose place is taken; it gives up
      exactly when a point beyond the limit of attempts has to be skipped. */
  method AppendUnique(seen: set<Xyz>, amount: nat, create: nat -> Point)
    returns (ok: bool, group: seq<Point>, taken: set<Xyz>, next: nat)
    ensures ok <==> !GivesUp(create, seen, amount)
    ensures ok ==> |group| == amount
    ensures group == Kept(create, seen, next) && taken == seen + Places(group)
    ensures Pairwise(Apart, group) && Places(group) !! seen && DrawnFrom(create, group)
  {
    ok, group, taken, next := DrawUnique(seen, amount, create);
    KeptApart(create, seen, next);
  }

  // ---------------------------------------------------------------- progressive order

  const GRID_BITS := 10

  /** The grid cell of a point. */
  function CellOf(p: Point): (c: Cell)
    ensures c.Fits(GRID_BITS)
  {
    assert Pow2(10) == 1024 by { assert Pow2(5) == 32; assert Pow2(10) == 2 * (2 * (2 * (2 * (2 * Pow2(5))))); }
    Cell(Clamp(0, 1023, Round((p.x + 1.0) * 511.5)),
         Clamp(0, 1023, Round((p.y + 1.0) * 511.5)),
         Clamp(0, 1023, Round((p.z + 1.0) * 511.5)))
  }

  datatype SortKey = SortKey(reversed: nat, code: nat, palette: int, flags: int)

  function ProgressiveKey(p: Point): SortKey {
    SortKey(Reverse(Code(CellOf(p), GRID_BITS), 3 * GRID_BITS), Code(CellOf(p), GRID_BITS), p.palette, p.flags)
  }

  predicate KeyLe(a: SortKey, b: SortKey) {
    a.reversed < b.reversed || (a.reversed == b.reversed
      && (a.code < b.code || (a.code == b.code
        && (a.palette < b.palette || (a.palette == b.palette && a.flags <= b.flags)))))
  }

  predicate PointLe(a: Point, b: Point) { KeyLe(ProgressiveKey(a), ProgressiveKey(b)) }

  function Progressive(group: seq<Point>): (s: seq<Point>)
    ensures |s| == |group|
  {
    Sort(PointLe, group)
  }

  predicate Coarse(p: Point, level: nat)
    requires level <= GRID_BITS
  {
    CellOf(p).OnLattice(Pow2(GRID_BITS - level))
  }

  lemma {:induction false} CoarseByKey(p: Point, level: nat)
    requires level <= GRID_BITS
    ensures Coarse(p, level) <==> ProgressiveKey(p).reversed < Pow8(level)
  {
    CoarseExactlyBelow(CellOf(p), GRID_BITS, level);
  }

  lemma {:induction false} PointOrder()
    ensures TotalPreorder(PointLe)
  {
    forall a, b ensures PointLe(a, b) || PointLe(b, a) { KeyTotal(ProgressiveKey(a), ProgressiveKey(b)); }
    forall a, b, c | PointLe(a, b) && PointLe(b, c) ensures PointLe(a, c) {
      KeyTransitive(ProgressiveKey(a), ProgressiveKey(b), ProgressiveKey(c));
    }
  }

  lemma {:induction false} KeyTotal(a: SortKey, b: SortKey)
    ensures KeyLe(a, b) || KeyLe(b, a)
  {
  }

  lemma {:induction false} KeyTransitive(a: SortKey, b: SortKey, c: SortKey)
    requires KeyLe(a, b) && KeyLe(b, c)
    ensures KeyLe(a, c)
  {
  }

  /** A progressive group lists every point of a lattice before any point off it. */
  lemma {:induction false} CoarseFirst(group: seq<Point>, level: nat, i: nat, j: nat)
    requires level <= GRID_BITS && i < j < |group|
    requires Coarse(Progressive(group)[j], level)
    ensures Coarse(Progressive(group)[i], level)
  {
    PointOrder();
    SortSorts(PointLe, group);
    var a, b := Progressive(group)[i], Progressive(group)[j];
    assert PointLe(a, b);
    CoarseByKey(a, level);
    CoarseByKey(b, level);
  }

  lemma {:induction false} ProgressivePermutes(group: seq<Point>)
    ensures multiset(Progressive(group)) == multiset(group) && Places(Progressive(group)) == Places(group)
    ensures Pairwise(Apart, group) ==> Pairwise(Apart, Progressive(group))
  {
    SortMembers(PointLe, group);
    if Pairwise(Apart, group) {
      PairwiseTransfers(Apart, group, Progressive(group));
    }
  }

  // ---------------------------------------------------------------- the merged cloud

  lemma {:induction false} TallyGrows(choices: seq<int>, k: nat, l: nat, g: int)
    requires k < l <= |choices| && choices[k] == g
    ensures Tally(choices, k, g) < Tally(choices, l, g)
    decreases l
  {
    if k + 1 == l {
    } else {
      TallyGrows(choices, k, l - 1, g);
    }
  }

  /** Groups that are apart inside and between themselves merge into an apart cloud. */
  lemma {:induction false} MergeIsApart(groups: seq<seq<Point>>, choices: seq<int>, points: seq<Point>)
    requires |groups| == 3 && MergeOf(groups, choices, points)
    requires Pairwise(Apart, groups[0]) && Pairwise(Apart, groups[1]) && Pairwise(Apart, groups[2])
    requires Places(groups[0]) !! Places(groups[1]) !! Places(groups[2])
    ensures Pairwise(Apart, points)
  {
    forall k, l | 0 <= k < l < |points| ensures Apart(points[k], points[l]) {
      assert TakesNext(groups, choices, k, points[k]) && TakesNext(groups, choices, l, points[l]);
      var g, h := choices[k], choices[l];
      if g == h {
        TallyGrows(choices, k, l, g);
      } else {
        assert Quantized(points[k]) in Places(groups[g]) && Quantized(points[l]) in Places(groups[h]);
      }
    }
  }

  /** In the merged output, too, each group shows its coarse points first. */
  lemma {:induction false} MergedCoarseFirst(groups: seq<seq<Point>>, choices: seq<int>, points: seq<Point>,
                                             level: nat, k: nat, l: nat)
    requires |groups| == 3 && level <= GRID_BITS
    requires MergeOf([Progressive(groups[0]), Progressive(groups[1]), Progressive(groups[2])], choices, points)
    requires k < l < |points| && choices[k] == choices[l] && Coarse(points[l], level)
    ensures Coarse(points[k], level)
  {
    var sorted := [Progressive(groups[0]), Progressive(groups[1]), Progressive(groups[2])];
    assert TakesNext(sorted, choices, k, points[k]) && TakesNext(sorted, choices, l, points[l]);
    var g := choices[k];
    TallyGrows(choices, k, l, g);
    CoarseFirst(groups[g], level, Tally(choices, k, g), Tally(choices, l, g));
  }

  function EdgeCount(count: nat): (n: nat)
    ensures n <= count
  {
    var n := Round(count as real * 0.2);
    if n < count then n else count
  }

  function SeamCount(count: nat, hasSeams: bool): (n: nat)
    ensures n <= count - EdgeCount(count)
  {
    var n := Round(count as real * 0.08);
    if !hasSeams then 0 else if n < count - EdgeCount(count) then n else count - EdgeCount(count)
  }

  /** The group is what some number of draws leave. */
  ghost predicate KeptFrom(create: nat -> Point, seen: set<Xyz>, group: seq<Point>) {
    exists n: nat :: group == Kept(create, seen, n)
  }

  lemma {:induction false} NothingKept(create: nat -> Point, seen: set<Xyz>)
    ensures KeptFrom(create, seen, [])
  {
    assert [] == Kept(create, seen, 0);
  }

  /** The points of one source; none if the source is missing. */
  method AppendEdges(wanted: bool, seen: set<Xyz>, amount: nat, create: nat -> Point)
    returns (ok: bool, group: seq<Point>, taken: set<Xyz>)
    ensures ok <==> !(wanted && GivesUp(create, seen, amount))
    ensures ok ==> |group| == if wanted then amount else 0
    ensures KeptFrom(create, seen, group) && taken == seen + Places(group)
    ensures Pairwise(Apart, group) && Places(group) !! seen && DrawnFrom(create, group)
  {
    NothingKept(create, seen);
    ok, group, taken := true, [], seen;
    if wanted {
      var next;
      ok, group, taken, next := AppendUnique(seen, amount, create);
    }
  }

  /** Feature edges are drawn first, then seams, then the surface, each away from those before. */
  ghost predicate DrawnInTurn(createEdge: nat -> Point, createSeam: nat -> Point, createSurface: nat -> Point,
                              a: seq<Point>, b: seq<Point>, c: seq<Point>)
  {
    && KeptFrom(createEdge, {}, a) && KeptFrom(createSeam, Places(a), b)
    && KeptFrom(createSurface, Places(a) + Places(b), c)
  }

  /** The three groups, each drawn from its own source, apart inside and between themselves; it
      fails exactly when one of the sources gives up, given the groups before it. */
  method Gather(edges: nat, seams: nat, surface: nat, hasFeatures: bool, hasSeams: bool,
                createEdge: nat -> Point, createSeam: nat -> Point, createSurface: nat -> Point)
    returns (ok: bool, a: seq<Point>, b: seq<Point>, c: seq<Point>)
    ensures ok <==>
      && !(hasFeatures && GivesUp(createEdge, {}, edges)) && !(hasSeams && GivesUp(createSeam, Places(a), seams))
      && !GivesUp(createSurface, Places(a) + Places(b), surface)
    ensures DrawnFrom(createEdge, a) && DrawnFrom(createSeam, b) && DrawnFrom(createSurface, c)
    ensures DrawnInTurn(createEdge, createSeam, createSurface, a, b, c)
    ensures ok ==>
      && |a| == (if hasFeatures then edges else 0) && |b| == (if hasSeams then seams else 0) && |c| == surface
      && Pairwise(Apart, a) && Pairwise(Apart, b) && Pairwise(Apart, c) && Places(a) !! Places(b) !! Places(c)
  {
    var seen: set<Xyz>;
    b, c := [], [];
    ok, a, seen := AppendEdges(hasFeatures, {}, edges, createEdge);
    assert seen == Places(a);
    NothingKept(createSeam, seen);
    NothingKept(createSurface, seen);
    assert seen + Places([]) == seen;
    if !ok { return; }
    ok, b, seen := AppendEdges(hasSeams, seen, seams, createSeam);
    assert seen == Places(a) + Places(b);
    NothingKept(createSurface, seen);
    if !ok { return; }
    ok, c, seen := AppendEdges(true, seen, surface, createSurface);
  }

  /** Sorts the groups progressively and merges them. */
  method OrderAndMerge(a: seq<Point>, b: seq<Point>, c: seq<Point>, count: nat)
    returns (merged: Outcome<Point>, ghost choices: seq<int>)
    requires |a| + |b| + |c| <= count
    requires Pairwise(Apart, a) && Pairwise(Apart, b) && Pairwise(Apart, c) && Places(a) !! Places(b) !! Places(c)
    ensures merged.Merged? <==> |a| + |b| + |c| == count
    ensures merged.Merged? ==>
      && |choices| == |merged.points| == count
      && MergeOf([Progressive(a), Progressive(b), Progressive(c)], choices, merged.points)
      && Tallies(choices, count) == Totals([a, b, c]) && Proportional(Totals([a, b, c]), choices, count)
      && Pairwise(Apart, merged.points)
  {
    ProgressivePermutes(a);
    ProgressivePermutes(b);
    ProgressivePermutes(c);
    var sorted := [Progressive(a), Progressive(b), Progressive(c)];
    merged, choices := Interleave.Interleave(sorted, count);
    if merged.Merged? { MergeIsApart(sorted, choices, merged.points); }
  }

  /** Some source gives up, given the groups drawn before. */
  ghost predicate SourceGivesUp(edges: nat, seams: nat, surface: nat, hasFeatures: bool, hasSeams: bool,
                                createEdge: nat -> Point, createSeam: nat -> Point, createSurface: nat -> Point,
                                groups: seq<seq<Point>>)
    requires |groups| == 3
  {
    || (hasFeatures && GivesUp(createEdge, {}, edges)) || (hasSeams && GivesUp(createSeam, Places(groups[0]), seams))
    || GivesUp(createSurface, Places(groups[0]) + Places(groups[1]), surface)
  }

  /** A proportional merge of three progressive groups of these sizes, without duplicate places. */
  ghost predicate Sampled(edges: nat, seams: nat, count: nat, groups: seq<seq<Point>>, choices: seq<int>,
                          points: seq<Point>)
    requires |groups| == 3
  {
    && |choices| == |points| == count && |groups[0]| == edges && |groups[1]| == seams
    && MergeOf([Progressive(groups[0]), Progressive(groups[1]), Progressive(groups[2])], choices, points)
    && Tallies(choices, |choices|) == Totals(groups) && Proportional(Totals(groups), choices, |choices|)
    && Pairwise(Apart, points)
  }

  /** Sampling with given sizes of the groups. */
  method SampleGroups(edges: nat, seams: nat, surface: nat, hasFeatures: bool, hasSeams: bool,
                      createEdge: nat -> Point, createSeam: nat -> Point, createSurface: nat -> Point)
    returns (cloud: Cloud, ghost groups: seq<seq<Point>>, ghost choices: seq<int>)
    requires !hasSeams ==> seams == 0
    ensures |groups| == 3
    ensures cloud.TooManyDuplicates? <==>
      SourceGivesUp(edges, seams, surface, hasFeatures, hasSeams, createEdge, createSeam, createSurface, groups)
    ensures !cloud.TooManyDuplicates? ==> (cloud.NothingLeft? <==> edges > 0 && !hasFeatures)
    ensures DrawnFrom(createEdge, groups[0]) && DrawnFrom(createSeam, groups[1]) && DrawnFrom(createSurface, groups[2])
    ensures DrawnInTurn(createEdge, createSeam, createSurface, groups[0], groups[1], groups[2])
    ensures cloud.Cloud? ==> Sampled(edges, seams, edges + seams + surface, groups, choices, cloud.points)
  {
    var ok, a, b, c := Gather(edges, seams, surface, hasFeatures, hasSeams, createEdge, createSeam, createSurface);
    groups, choices := [a, b, c], [];
    if !ok { return TooManyDuplicates, groups, choices; }
    var merged;
    merged, choices := OrderAndMerge(a, b, c, edges + seams + surface);
    match merged {
      case NothingAvailable => cloud := NothingLeft;
      case Merged(points) => cloud := Cloud(points);
    }
  }

  /** How many points each group is to have. */
  function Shares(count: nat, hasSeams: bool): (shares: (nat, nat, nat))
    ensures shares.0 + shares.1 + shares.2 == count && (!hasSeams ==> shares.1 == 0)
  {
    var edges, seams := EdgeCount(count), SeamCount(count, hasSeams);
    (edges, seams, count - edges - seams)
  }

  /** The compiler's sampling stage. It gives up exactly when a source does, and comes out short
      exactly when the model has no feature edges although some points are due to them; what it
      returns is a proportional merge of three progressive groups, each drawn from its own source,
      and no two points share a quantized place. */
  method SamplePoints(count: nat, hasFeatures: bool, hasSeams: bool,
                      createEdge: nat -> Point, createSeam: nat -> Point, createSurface: nat -> Point)
    returns (cloud: Cloud, ghost groups: seq<seq<Point>>, ghost choices: seq<int>)
    ensures |groups| == 3
    ensures var (edges, seams, surface) := Shares(count, hasSeams);
      && (cloud.TooManyDuplicates? <==>
            SourceGivesUp(edges, seams, surface, hasFeatures, hasSeams, createEdge, createSeam, createSurface, groups))
      && (!cloud.TooManyDuplicates? ==> (cloud.NothingLeft? <==> edges > 0 && !hasFeatures))
      && (cloud.Cloud? ==> Sampled(edges, seams, count, groups, choices, cloud.points))
    ensures DrawnFrom(createEdge, groups[0]) && DrawnFrom(createSeam, groups[1]) && DrawnFrom(createSurface, groups[2])
    ensures DrawnInTurn(createEdge, createSeam, createSurface, groups[0], groups[1], groups[2])
  {
    var (edges, seams, surface) := Shares(count, hasSeams);
    cloud, groups, choices :=
      SampleGroups(edges, seams, surface, hasFeatures, hasSeams, createEdge, createSeam, createSurface);
  }

  // ---------------------------------------------------------------- the encoder's check

  lemma {:induction false} PlacesCount(s: seq<Point>)
    ensures |Places(s)| <= |s|
    ensures |Places(s)| == |s| <==> Pairwise(Apart, s)
  {
    if s == [] {
    } else {
      var front, x := s[..|s| - 1], s[|s| - 1];
      assert s == front + [x];
      PlacesCount(front);
      PairwiseSnoc(Apart, front, x);
      assert Places(s) == Places(front) + {Quantized(x)};
      TakenPlace(front, x);
    }
  }

  lemma {:induction false} TakenPlace(s: seq<Point>, x: Point)
    ensures Quantized(x) !in Places(s) <==> forall i :: 0 <= i < |s| ==> Apart(s[i], x)
  {
    if Quantized(x) in Places(s) {
      var p :| p in s && Quantized(p) == Quantized(x);
      var k :| 0 <= k < |s| && s[k] == p;
      assert !Apart(s[k], x);
    } else {
      forall i | 0 <= i < |s| ensures Apart(s[i], x) { assert s[i] in s; }
    }
  }

  /** The encoder counts distinct quantized places; it has no bounds for a cloud without points. */
  method EncodeAccepts(points: seq<Point>) returns (ok: bool)
    ensures ok <==> points != [] && Pairwise(Apart, points)
  {
    var places: set<Xyz> := {};
    for k := 0 to |points|
      invariant places == Places(points[..k])
    {
      assert points[..k + 1] == points[..k] + [points[k]];
      places := places + {Quantized(points[k])};
    }
    assert points[..|points|] == points;
    PlacesCount(points);
    ok := |places| == |points| && points != [];
  }

  /** The encoder accepts every sampled cloud that has points. */
  method CompileModel(count: nat, hasFeatures: bool, hasSeams: bool,
                      createEdge: nat -> Point, createSeam: nat -> Point, createSurface: nat -> Point)
    returns (cloud: Cloud, encoded: bool)
    ensures encoded <==> cloud.Cloud? && count > 0
    ensures cloud.Cloud? ==> |cloud.points| == count && Pairwise(Apart, cloud.points)
    ensures cloud.NothingLeft? ==> Shares(count, hasSeams).0 > 0 && !hasFeatures
  {
    ghost var groups, choices;
    cloud, groups, choices := SamplePoints(count, hasFeatures, hasSeams, createEdge, createSeam, createSurface);
    encoded := false;
    if cloud.Cloud? {
      encoded := EncodeAccepts(cloud.points);
    }
  }
}
