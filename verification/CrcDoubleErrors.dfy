/** Two flipped bits: the CRC misses them only when they are a multiple of 32767 bits apart.

    Shifting a register is multiplication by x modulo the polynomial, so the question is
    which powers of x are one. */
module CrcDoubleErrors {
  import opened Crc16

  const ORDER := 32767

  function One(n: nat): (r: Register)
    requires n > 0
    ensures |r| == n
  {
    Zeros(n - 1) + [true]
  }

  /** The power of x, modulo the polynomial. */
  function Power(poly: Register, n: nat): (r: Register)
    requires |poly| > 0
    ensures |r| == |poly|
  {
    Steps(poly, One(|poly|), n)
  }

  lemma {:induction false} StepsAdd(poly: Register, r: Register, m: nat, n: nat)
    requires |r| == |poly| > 0
    ensures Steps(poly, r, m + n) == Steps(poly, Steps(poly, r, m), n)
    decreases m
  {
    if m == 0 {
      assert Steps(poly, r, 0) == r;
    } else {
      StepsAdd(poly, Step(poly, r), m - 1, n);
    }
  }

  lemma {:induction false} StepLast(poly: Register, r: Register, n: nat)
    requires |r| == |poly| > 0
    ensures Step(poly, Steps(poly, r, n)) == Steps(poly, Step(poly, r), n)
  {
    StepsAdd(poly, r, n, 1);
    assert Steps(poly, Steps(poly, r, n), 1) == Steps(poly, Step(poly, Steps(poly, r, n)), 0);
  }

  lemma {:induction false} StepsXor(poly: Register, a: Register, b: Register, n: nat)
    requires |a| == |b| == |poly| > 0
    ensures Steps(poly, Xor(a, b), n) == Xor(Steps(poly, a, n), Steps(poly, b, n))
    decreases n
  {
    if n == 0 {
      assert Steps(poly, Xor(a, b), 0) == Xor(a, b);
    } else {
      StepXor(poly, a, b);
      StepsXor(poly, Step(poly, a), Step(poly, b), n - 1);
    }
  }

  // ---------------------------------------------------------------- multiplying powers

  /** Horner's rule: the product of `v`, most significant bit first, and `w`, on top of `acc`. */
  function Product(poly: Register, v: seq<bool>, w: Register, acc: Register): (r: Register)
    requires |w| == |acc| == |poly| > 0
    ensures |r| == |poly|
    decreases |v|
  {
    if v == [] then acc
    else Product(poly, v[1..], w, if v[0] then Xor(Step(poly, acc), w) else Step(poly, acc))
  }

  lemma {:induction false} NextBit(poly: Register, u: seq<bool>, bit: bool, k: nat)
    requires |u| + k + 1 == |poly|
    ensures Zeros(k) + (u + [bit])
      == if bit then Xor(Step(poly, Zeros(k + 1) + u), One(|poly|)) else Step(poly, Zeros(k + 1) + u)
  {
    assert Shift(Zeros(k + 1) + u) == Zeros(k) + (u + [false]);
  }

  lemma {:induction false} ProductShifts(poly: Register, u: seq<bool>, v: seq<bool>, acc: Register, n: nat)
    requires |u| + |v| == |poly| == |acc| > 0
    requires acc == Steps(poly, Zeros(|v|) + u, n)
    ensures Product(poly, v, Power(poly, n), acc) == Steps(poly, u + v, n)
    decreases |v|
  {
    if v == [] {
      assert Zeros(0) + u == u == u + v;
    } else {
      var before, next := Zeros(|v|) + u, Zeros(|v| - 1) + (u + [v[0]]);
      NextBit(poly, u, v[0], |v| - 1);
      StepLast(poly, before, n);
      if v[0] { StepsXor(poly, Step(poly, before), One(|poly|), n); }
      assert u + v == (u + [v[0]]) + v[1..];
      ProductShifts(poly, u + [v[0]], v[1..], Steps(poly, next, n), n);
    }
  }

  /** Multiplying powers adds their exponents. */
  lemma {:induction false} PowersMultiply(poly: Register, m: nat, n: nat)
    requires |poly| > 0
    ensures Product(poly, Power(poly, m), Power(poly, n), Zeros(|poly|)) == Power(poly, m + n)
  {
    StepsOfZero(poly, n);
    assert Zeros(|poly|) + [] == Zeros(|poly|);
    ProductShifts(poly, [], Power(poly, m), Zeros(|poly|), n);
    assert [] + Power(poly, m) == Power(poly, m);
    StepsAdd(poly, One(|poly|), m, n);
  }

  // ---------------------------------------------------------------- computing with words

  function StepWord(r: bv16): bv16 {
    ShiftOnce(r, CCITT)
  }

  lemma {:induction false} StepWordBits(r: bv16)
    ensures BitsOf(StepWord(r)) == Step(BitsOf(CCITT), BitsOf(r))
  {
    ShiftOnceIsStep(r, CCITT);
  }

  predicate Top(a: bv16) { a & 0x8000 != 0 }

  function AddIf(top: bool, b: bv16, s: bv16): bv16 {
    if top then s ^ b else s
  }

  function NextSum(top: bool, b: bv16, acc: bv16): bv16 {
    AddIf(top, b, StepWord(acc))
  }

  function Times(a: bv16, b: bv16, acc: bv16, n: nat): bv16
    decreases n
  {
    if n == 0 then acc else Times(a << 1, b, NextSum(Top(a), b, acc), n - 1)
  }

  lemma {:induction false} TopBit(a: bv16)
    ensures BitsOf(a)[0] == Top(a)
  {
  }

  lemma {:induction false} AddIfBits(top: bool, b: bv16, s: bv16)
    ensures BitsOf(AddIf(top, b, s)) == if top then Xor(BitsOf(s), BitsOf(b)) else BitsOf(s)
  {
    BitsOfXor(s, b);
  }

  lemma {:induction false} NextSumBits(top: bool, b: bv16, acc: bv16)
    ensures BitsOf(NextSum(top, b, acc))
      == if top then Xor(Step(BitsOf(CCITT), BitsOf(acc)), BitsOf(b)) else Step(BitsOf(CCITT), BitsOf(acc))
  {
    StepWordBits(acc);
    AddIfBits(top, b, StepWord(acc));
  }

  lemma {:induction false} TimesBits(a: bv16, b: bv16, acc: bv16, n: nat)
    requires n <= 16
    ensures BitsOf(Times(a, b, acc, n)) == Product(BitsOf(CCITT), BitsOf(a)[..n], BitsOf(b), BitsOf(acc))
    decreases n
  {
    if n == 0 {
      assert BitsOf(a)[..0] == [];
    } else {
      BitsOfShift(a);
      TopBit(a);
      NextSumBits(Top(a), b, acc);
      assert BitsOf(a)[..n][1..] == BitsOf(a << 1)[..n - 1];
      TimesBits(a << 1, b, NextSum(Top(a), b, acc), n - 1);
    }
  }

  predicate PowerIs(n: nat, c: bv16) {
    Power(BitsOf(CCITT), n) == BitsOf(c)
  }

  lemma {:induction false} Multiply(m: nat, a: bv16, n: nat, b: bv16)
    requires PowerIs(m, a) && PowerIs(n, b)
    ensures PowerIs(m + n, Times(a, b, 0, 16))
  {
    PowersMultiply(BitsOf(CCITT), m, n);
    TimesBits(a, b, 0, 16);
    assert BitsOf(a)[..16] == BitsOf(a);
    assert BitsOf(0) == Zeros(16);
  }

  // ---------------------------------------------------------------- particular powers

  // Several lemmas below take a parameter `n` that is one. It keeps their exponents from being
  // literals: the verifier unrolls a recursive function with literal arguments all the way, and
  // `Steps` would then be unrolled thousands of times.

  function FourBits(a: bv16, b: bv16, acc: bv16): bv16 {
    NextSum(Top(a << 3), b, NextSum(Top(a << 2), b, NextSum(Top(a << 1), b, NextSum(Top(a), b, acc))))
  }

  function ProductOf(a: bv16, b: bv16): bv16 {
    FourBits(a << 12, b, FourBits(a << 8, b, FourBits(a << 4, b, FourBits(a, b, 0))))
  }

  lemma {:induction false} Shifts(a: bv16)
    ensures (a << 1) << 1 == a << 2 && (a << 2) << 1 == a << 3 && (a << 3) << 1 == a << 4
    ensures (a << 4) << 4 == a << 8 && (a << 8) << 4 == a << 12
  {
  }

  lemma {:induction false} OneTimes(a: bv16, b: bv16, acc: bv16, n: nat)
    ensures Times(a, b, acc, n + 1) == Times(a << 1, b, NextSum(Top(a), b, acc), n)
  {
  }

  lemma {:induction false} FourTimes(a: bv16, b: bv16, acc: bv16, n: nat)
    ensures Times(a, b, acc, n + 4) == Times(a << 4, b, FourBits(a, b, acc), n)
  {
    Shifts(a);
    var s1 := NextSum(Top(a), b, acc);
    var s2 := NextSum(Top(a << 1), b, s1);
    var s3 := NextSum(Top(a << 2), b, s2);
    OneTimes(a, b, acc, n + 3);
    OneTimes(a << 1, b, s1, n + 2);
    OneTimes(a << 2, b, s2, n + 1);
    OneTimes(a << 3, b, s3, n);
  }

  lemma {:induction false} ProductTimes(a: bv16, b: bv16)
    ensures ProductOf(a, b) == Times(a, b, 0, 16)
  {
    Shifts(a);
    var s1 := FourBits(a, b, 0);
    var s2 := FourBits(a << 4, b, s1);
    var s3 := FourBits(a << 8, b, s2);
    FourTimes(a, b, 0, 12);
    FourTimes(a << 4, b, s1, 8);
    FourTimes(a << 8, b, s2, 4);
    FourTimes(a << 12, b, s3, 0);
  }

  lemma {:induction false} SquareValues0()
    ensures ProductOf(0x2, 0x2) == 0x4
    ensures ProductOf(0x4, 0x4) == 0x10
    ensures ProductOf(0x10, 0x10) == 0x100
  {
  }

  lemma {:induction false} SquareValues1()
    ensures ProductOf(0x100, 0x100) == 0x1021
    ensures ProductOf(0x1021, 0x1021) == 0x3730
    ensures ProductOf(0x3730, 0x3730) == 0xb861
  {
  }

  lemma {:induction false} SquareValues2()
    ensures ProductOf(0xb861, 0xb861) == 0xaefc
  {
  }

  lemma {:induction false} LargeSquareValues0()
    ensures ProductOf(0xaefc, 0xaefc) == 0x8e29
    ensures ProductOf(0x8e29, 0x8e29) == 0x13fc
    ensures ProductOf(0x13fc, 0x13fc) == 0x36c4
  {
  }

  lemma {:induction false} LargeSquareValues1()
    ensures ProductOf(0x36c4, 0x36c4) == 0xfd50
    ensures ProductOf(0xfd50, 0xfd50) == 0xaa9e
    ensures ProductOf(0xaa9e, 0xaa9e) == 0x881c
  {
  }

  lemma {:induction false} LargeSquareValues2()
    ensures ProductOf(0x881c, 0x881c) == 0x4458
    ensures ProductOf(0x4458, 0x4458) == 0x2
  {
  }

  lemma {:induction false} OtherValues0()
    ensures ProductOf(0x2, 0x100) == 0x200
    ensures ProductOf(0x200, 0x1021) == 0x6662
    ensures ProductOf(0x6662, 0xb861) == 0xde8a
  {
  }

  lemma {:induction false} OtherValues1()
    ensures ProductOf(0xde8a, 0xaefc) == 0x48e3
    ensures ProductOf(0x2, 0x3730) == 0x6e60
    ensures ProductOf(0x6e60, 0x36c4) == 0xf2af
  {
  }

  lemma {:induction false} OtherValues2()
    ensures ProductOf(0x200, 0xb861) == 0x8fa6
    ensures ProductOf(0x8fa6, 0x13fc) == 0x4500
    ensures ProductOf(0x4500, 0xaa9e) == 0x2c42
  {
  }

  lemma {:induction false} Combine(m: nat, a: bv16, n: nat, b: bv16, c: bv16)
    requires PowerIs(m, a) && PowerIs(n, b) && ProductOf(a, b) == c
    ensures PowerIs(m + n, c)
  {
    Multiply(m, a, n, b);
    ProductTimes(a, b);
  }

  lemma {:induction false} FirstPower(n: nat)
    requires n == 1
    ensures BitsOf(1) == One(16) && PowerIs(n, 2)
  {
    StepWordBits(1);
    assert Steps(BitsOf(CCITT), One(16), n) == Steps(BitsOf(CCITT), Step(BitsOf(CCITT), One(16)), 0);
  }

  /** Powers of x by repeated squaring; the exponents are multiples of `n`, which is one. */
  lemma {:induction false} Squares(n: nat)
    requires n == 1
    ensures PowerIs(n, 0x2) && PowerIs(8 * n, 0x100) && PowerIs(16 * n, 0x1021) && PowerIs(32 * n, 0x3730)
    ensures PowerIs(64 * n, 0xb861) && PowerIs(128 * n, 0xaefc)
  {
    FirstPower(n);
    SquareValues0();
    SquareValues1();
    SquareValues2();
    Combine(n, 0x2, n, 0x2, 0x4);
    Combine(2 * n, 0x4, 2 * n, 0x4, 0x10);
    Combine(4 * n, 0x10, 4 * n, 0x10, 0x100);
    Combine(8 * n, 0x100, 8 * n, 0x100, 0x1021);
    Combine(16 * n, 0x1021, 16 * n, 0x1021, 0x3730);
    Combine(32 * n, 0x3730, 32 * n, 0x3730, 0xb861);
    Combine(64 * n, 0xb861, 64 * n, 0xb861, 0xaefc);
  }

  lemma {:induction false} LargeSquares(n: nat)
    requires n == 1
    ensures PowerIs(512 * n, 0x13fc) && PowerIs(1024 * n, 0x36c4) && PowerIs(4096 * n, 0xaa9e)
      && PowerIs(32768 * n, 0x2)
  {
    Squares(n);
    LargeSquareValues0();
    LargeSquareValues1();
    LargeSquareValues2();
    Combine(128 * n, 0xaefc, 128 * n, 0xaefc, 0x8e29);
    Combine(256 * n, 0x8e29, 256 * n, 0x8e29, 0x13fc);
    Combine(512 * n, 0x13fc, 512 * n, 0x13fc, 0x36c4);
    Combine(1024 * n, 0x36c4, 1024 * n, 0x36c4, 0xfd50);
    Combine(2048 * n, 0xfd50, 2048 * n, 0xfd50, 0xaa9e);
    Combine(4096 * n, 0xaa9e, 4096 * n, 0xaa9e, 0x881c);
    Combine(8192 * n, 0x881c, 8192 * n, 0x881c, 0x4458);
    Combine(16384 * n, 0x4458, 16384 * n, 0x4458, 0x2);
  }

  lemma {:induction false} PowersNotOne(n: nat)
    requires n == 1
    ensures PowerIs(217 * n, 0x48e3) && PowerIs(1057 * n, 0xf2af) && PowerIs(4681 * n, 0x2c42)
  {
    Squares(n);
    LargeSquares(n);
    OtherValues0();
    OtherValues1();
    OtherValues2();
    Combine(n, 0x2, 8 * n, 0x100, 0x200);
    Combine(9 * n, 0x200, 16 * n, 0x1021, 0x6662);
    Combine(25 * n, 0x6662, 64 * n, 0xb861, 0xde8a);
    Combine(89 * n, 0xde8a, 128 * n, 0xaefc, 0x48e3);
    Combine(n, 0x2, 32 * n, 0x3730, 0x6e60);
    Combine(33 * n, 0x6e60, 1024 * n, 0x36c4, 0xf2af);
    Combine(9 * n, 0x200, 64 * n, 0xb861, 0x8fa6);
    Combine(73 * n, 0x8fa6, 512 * n, 0x13fc, 0x4500);
    Combine(585 * n, 0x4500, 4096 * n, 0xaa9e, 0x2c42);
  }

  // ---------------------------------------------------------------- the order of x

  /** This power of x is one. */
  predicate Period(n: nat) {
    Power(BitsOf(CCITT), n) == One(16)
  }

  lemma {:induction false} ConstantTerm()
    ensures BitsOf(CCITT)[15]
  {
    assert BitsOf(CCITT)[15] == (CCITT & MASKS[15] != 0);
  }

  lemma {:induction false} OrderIsPeriod(n: nat)
    requires n == 1
    ensures Period(ORDER * n)
  {
    var p := BitsOf(CCITT);
    FirstPower(n);
    LargeSquares(n);
    StepsAdd(p, One(16), ORDER * n, n);
    ConstantTerm();
    StepsInjective(p, Power(p, ORDER * n), One(16), n);
  }

  lemma {:induction false} NotOne(c: bv16)
    requires c != 1
    ensures BitsOf(c) != One(16)
  {
    if BitsOf(c) == One(16) {
      FirstPower(1);
      BitsOfInjective(c, 1);
    }
  }

  lemma {:induction false} NotPeriods(n: nat)
    requires n == 1
    ensures !Period(217 * n) && !Period(1057 * n) && !Period(4681 * n)
  {
    PowersNotOne(n);
    NotOne(0x48e3);
    NotOne(0xf2af);
    NotOne(0x2c42);
  }

  lemma {:induction false} PeriodsAdd(m: nat, n: nat)
    requires Period(m)
    ensures Period(m + n) == Period(n)
  {
    StepsAdd(BitsOf(CCITT), One(16), m, n);
  }

  lemma {:induction false} Multiples(m: nat, k: nat)
    requires Period(m)
    ensures Period(k * m)
  {
    if k == 0 {
      assert Period(0);
    } else {
      Multiples(m, k - 1);
      PeriodsAdd(m, (k - 1) * m);
      assert m + (k - 1) * m == k * m;
    }
  }

  lemma {:induction false} Remainder(m: nat, n: nat)
    requires Period(m) && m > 0
    ensures Period(n % m) == Period(n)
  {
    var k := n / m;
    assert n == m * k + n % m;
    assert m * k == k * m;
    Multiples(m, k);
    PeriodsAdd(k * m, n % m);
  }

  lemma {:induction false} LeastPeriod(bound: nat) returns (m: nat)
    requires bound > 0 && Period(bound)
    ensures 0 < m <= bound && Period(m) && forall k :: 0 < k < m ==> !Period(k)
  {
    m := 1;
    while !Period(m)
      invariant 0 < m <= bound && forall k :: 0 < k < m ==> !Period(k)
      decreases bound - m
    {
      m := m + 1;
    }
  }

  // ---------------------------------------------------------------- 32767 is 7 * 31 * 151

  ghost predicate Prime(p: nat) {
    p > 1 && forall d {:trigger p % d} :: 1 < d < p ==> p % d != 0
  }

  lemma {:induction false} SmallFactor(p: nat, d: nat, e: nat)
    requires (p == 7 || p == 31 || p == 151) && d * e == p && 1 < d <= 12
    ensures e == 1
  {
    assert d == 2 || d == 3 || d == 4 || d == 5 || d == 6 || d == 7 || d == 8 || d == 9 || d == 10 || d == 11
      || d == 12;
  }

  lemma {:induction false} Large(p: nat, d: nat, e: nat)
    requires d * e == p <= 151 && d > 12
    ensures e <= 12
  {
    Larger(d, e);
  }

  lemma {:induction false} Larger(d: nat, e: nat)
    requires d >= 13
    ensures d * e >= 13 * e
  {
    assert d * e == 13 * e + (d - 13) * e;
  }

  lemma {:induction false} Primes(p: nat)
    requires p == 7 || p == 31 || p == 151
    ensures Prime(p)
  {
    forall d {:trigger p % d} | 1 < d < p ensures p % d != 0 {
      if p % d == 0 {
        var e := p / d;
        assert d * e == p;
        assert e != 0 && e != 1 by { assert d * 0 == 0 && d * 1 == d; }
        if d <= 12 {
          SmallFactor(p, d, e);
        } else {
          Large(p, d, e);
          SmallFactor(p, e, d);
        }
      }
    }
  }

  /** A prime that divides a product and not the one factor divides the other. */
  lemma {:induction false} DividesOther(p: nat, r: nat, s: nat, u: int) returns (w: int)
    requires Prime(p) && 0 < r < p && r * s == p * u
    ensures s == p * w
    decreases r
  {
    if r == 1 {
      w := u;
    } else {
      var q, t := p / r, p % r;
      assert p == r * q + t;
      calc {
        t * s;
        (p - r * q) * s;
        p * s - q * (r * s);
        p * s - q * (p * u);
        p * (s - q * u);
      }
      w := DividesOther(p, t, s, s - q * u);
    }
  }

  /** A prime divides a period of which `rest` is no multiple, if the product of the two is one. */
  lemma {:induction false} PrimeInPeriod(p: nat, rest: nat, m: nat, k: nat) returns (w: int)
    requires Prime(p) && m * k == p * rest && Period(m) && !Period(rest)
    ensures m == p * w
  {
    var q, r := k / p, k % p;
    assert k == p * q + r;
    assert p * (m * q) + m * r == p * rest by {
      assert m * k == m * (p * q + r) == m * (p * q) + m * r;
      assert m * (p * q) == p * (m * q);
    }
    assert r * m == p * (rest - m * q) by { assert p * (rest - m * q) == p * rest - p * (m * q); }
    if r == 0 {
      assert rest == q * m;
      Multiples(m, q);
    }
    w := DividesOther(p, r, m, rest - m * q);
  }

  lemma {:induction false} LeastIsOrder(m: nat, k: nat)
    requires 0 < m && m * k == ORDER && Period(m)
    ensures m >= ORDER
  {
    NotPeriods(1);
    Primes(7);
    Primes(31);
    Primes(151);
    var a := PrimeInPeriod(7, 4681, m, k);
    var b := PrimeInPeriod(31, 1057, m, k);
    var c := PrimeInPeriod(151, 217, m, k);
    var d := DividesOther(31, 7, a, b);
    var e := DividesOther(151, 66, d, c - d);
  }

  /** The powers of x repeat after exactly 32767 steps. */
  lemma {:induction false} PeriodsExactly(n: nat)
    ensures Period(n) <==> n % ORDER == 0
  {
    OrderIsPeriod(1);
    var m := LeastPeriod(ORDER);
    Remainder(m, ORDER);
    LeastIsOrder(m, ORDER / m);
    Remainder(ORDER, n);
    assert Period(0);
  }

  // ---------------------------------------------------------------- two flipped bits

  /** The register with only its top bit set. */
  function TopOnly(n: nat): (r: Register)
    requires n > 0
    ensures |r| == n
  {
    [true] + Zeros(n - 1)
  }

  lemma {:induction false} MovesUp(poly: Register, k: nat, m: nat)
    requires k + 1 + m == |poly|
    ensures Steps(poly, Zeros(k) + ([true] + Zeros(m)), k) == TopOnly(|poly|)
    decreases k
  {
    if k == 0 {
      assert Zeros(0) + ([true] + Zeros(m)) == TopOnly(|poly|);
    } else {
      assert Shift(Zeros(k) + ([true] + Zeros(m))) == Zeros(k - 1) + ([true] + Zeros(m + 1));
      MovesUp(poly, k - 1, m + 1);
    }
  }

  /** Shifting leads from the top bit back to the top bit exactly when that power of x is one. */
  lemma {:induction false} TopReturns(poly: Register, n: nat)
    requires |poly| > 0 && poly[|poly| - 1]
    ensures Steps(poly, TopOnly(|poly|), n) == TopOnly(|poly|) <==> Power(poly, n) == One(|poly|)
  {
    var one, k := One(|poly|), |poly| - 1;
    assert one == Zeros(k) + ([true] + Zeros(0));
    MovesUp(poly, k, 0);
    StepsAdd(poly, one, k, n);
    StepsAdd(poly, one, n, k);
    if Steps(poly, TopOnly(|poly|), n) == TopOnly(|poly|) { StepsInjective(poly, Power(poly, n), one, k); }
  }

  lemma {:induction false} FeedZeros(poly: Register, r: Register, n: nat)
    requires |r| == |poly| > 0
    ensures FeedAll(poly, r, Zeros(n)) == Steps(poly, r, n)
    decreases n
  {
    if n == 0 {
      assert Zeros(0) == [];
    } else {
      assert Zeros(n)[1..] == Zeros(n - 1);
      assert [r[0] != false] + r[1..] == r;
      FeedZeros(poly, Step(poly, r), n - 1);
    }
  }

  /** Feeding a set bit and then zeros. */
  lemma {:induction false} FeedOne(poly: Register, r: Register, n: nat)
    requires |r| == |poly| > 0
    ensures FeedAll(poly, r, [true] + Zeros(n)) == Steps(poly, Xor(r, TopOnly(|poly|)), n + 1)
  {
    var bits := [true] + Zeros(n);
    assert bits[1..] == Zeros(n);
    assert [r[0] != true] + r[1..] == Xor(r, TopOnly(|poly|));
    FeedZeros(poly, Feed(poly, r, true), n);
  }

  /** A message with exactly two bits set. */
  function TwoBits(i: nat, gap: nat, rest: nat): seq<bool> {
    Zeros(i) + (([true] + Zeros(gap)) + ([true] + Zeros(rest)))
  }

  lemma {:induction false} TwoBitsLeaveZero(poly: Register, i: nat, gap: nat, rest: nat)
    requires |poly| > 0 && poly[|poly| - 1]
    ensures FeedAll(poly, Zeros(|poly|), TwoBits(i, gap, rest)) == Zeros(|poly|)
      <==> Power(poly, gap + 1) == One(|poly|)
  {
    var zero, top := Zeros(|poly|), TopOnly(|poly|);
    var first, second := [true] + Zeros(gap), [true] + Zeros(rest);
    FeedThreeParts(poly, zero, Zeros(i), first, second);
    FeedZeros(poly, zero, i);
    StepsOfZero(poly, i);
    FeedOne(poly, zero, gap);
    assert Xor(zero, top) == top;
    var r := Steps(poly, top, gap + 1);
    FeedOne(poly, r, rest);
    StepsOfZero(poly, rest + 1);
    if Steps(poly, Xor(r, top), rest + 1) == zero { StepsInjective(poly, Xor(r, top), zero, rest + 1); }
    DifferenceZero(r, top);
    TopReturns(poly, gap + 1);
  }

  lemma {:induction false} DifferenceZero(a: Register, b: Register)
    requires |a| == |b|
    ensures Xor(a, b) == Zeros(|a|) <==> a == b
  {
    if Xor(a, b) == Zeros(|a|) {
      forall k | 0 <= k < |a| ensures a[k] == b[k] { assert !Xor(a, b)[k]; }
    }
  }

  /** Two messages have the same CRC exactly when their difference leaves a zero register. */
  lemma {:induction false} SameCrc(poly: Register, init: Register, x: seq<bool>, y: seq<bool>)
    requires |init| == |poly| > 0 && |x| == |y|
    ensures FeedAll(poly, init, x) == FeedAll(poly, init, y)
      <==> FeedAll(poly, Zeros(|poly|), Xor(x, y)) == Zeros(|poly|)
  {
    FeedAllXor(poly, init, x, init, y);
    DifferenceZero(init, init);
    DifferenceZero(FeedAll(poly, init, x), FeedAll(poly, init, y));
  }

  /** Two records of equal length that differ in exactly two bits have the same CRC only when those
      bits are a multiple of 32767 apart; in a record that is no longer, they never do. */
  lemma {:induction false} RecordDoubleErrors(crc: bv16, a: seq<bv16>, b: seq<bv16>, i: nat, j: nat)
    requires |a| == |b| && i < j < 16 * |a|
    requires forall k :: 0 <= k < 16 * |a| ==> (Message(a)[k] != Message(b)[k] <==> k == i || k == j)
    ensures Crc(CCITT, crc, a) == Crc(CCITT, crc, b) <==> (j - i) % ORDER == 0
  {
    var x, y := Message(a), Message(b);
    assert Xor(x, y) == TwoBits(i, j - i - 1, |x| - j - 1);
    SameCrc(BitsOf(CCITT), BitsOf(crc), x, y);
    ConstantTerm();
    TwoBitsLeaveZero(BitsOf(CCITT), i, j - i - 1, |x| - j - 1);
    PeriodsExactly(j - i);
  }

  lemma {:induction false} RecordDoubleErrorsDetected(crc: bv16, a: seq<bv16>, b: seq<bv16>, i: nat, j: nat)
    requires |a| == |b| && i < j < 16 * |a| <= ORDER
    requires forall k :: 0 <= k < 16 * |a| ==> (Message(a)[k] != Message(b)[k] <==> k == i || k == j)
    ensures Crc(CCITT, crc, a) != Crc(CCITT, crc, b)
  {
    RecordDoubleErrors(crc, a, b, i, j);
  }
}
