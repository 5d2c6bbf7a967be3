/** The progressive order: reversed Morton significance.

    A point's three grid coordinates are interleaved bit by bit and the result is
    reversed, so that points on coarse lattices come before the finer ones. */
module Morton {

  function Pow2(n: nat): (p: nat)
    ensures p > 0
  {
    if n == 0 then 1 else 2 * Pow2(n - 1)
  }

  function Pow8(n: nat): (p: nat)
    ensures p > 0
  {
    if n == 0 then 1 else 8 * Pow8(n - 1)
  }

  datatype Cell = Cell(x: nat, y: nat, z: nat) {
    predicate Fits(w: nat) { x < Pow2(w) && y < Pow2(w) && z < Pow2(w) }

    /** The cell without its lowest coordinate bits. */
    function Half(): Cell { Cell(x / 2, y / 2, z / 2) }

    /** The lowest bits, x in place 0, y in place 1, z in place 2. */
    function Low(): nat { x % 2 + 2 * (y % 2) + 4 * (z % 2) }

    function At(axis: nat): nat
      requires axis < 3
    {
      if axis == 0 then x else if axis == 1 then y else z
    }

    predicate OnLattice(step: nat)
      requires step > 0
    {
      x % step == 0 && y % step == 0 && z % step == 0
    }
  }

  /** The interleaved code of `w`-bit coordinates. */
  function Code(c: Cell, w: nat): (m: nat)
    ensures m < Pow8(w)
    decreases w
  {
    if w == 0 then 0 else c.Low() + 8 * Code(c.Half(), w - 1)
  }

  /** The lowest `n` bits of `m` in reverse order. */
  function Reverse(m: nat, n: nat): (r: nat)
    ensures r < Pow2(n)
    decreases n
  {
    if n == 0 then 0 else (if m % 2 == 1 then Pow2(n - 1) else 0) + Reverse(m / 2, n - 1)
  }

  lemma {:induction false} Pow8IsPow2(n: nat)
    ensures Pow8(n) == Pow2(3 * n)
  {
    if n == 0 {
    } else {
      Pow8IsPow2(n - 1);
      var k := 3 * (n - 1);
      assert 3 * n == k + 3 && Pow2(k + 3) == 2 * Pow2(k + 2) && Pow2(k + 2) == 2 * Pow2(k + 1);
    }
  }

  lemma {:induction false} HalfEquals(a: Cell, b: Cell)
    requires a.Half() == b.Half() && a.Low() == b.Low()
    ensures a == b
  {
  }

  /** No two cells of the grid share a code. */
  lemma {:induction false} CodeInjective(a: Cell, b: Cell, w: nat)
    requires a.Fits(w) && b.Fits(w) && Code(a, w) == Code(b, w)
    ensures a == b
    decreases w
  {
    if w == 0 {
    } else {
      assert a.Low() < 8 && b.Low() < 8;
      CodeInjective(a.Half(), b.Half(), w - 1);
      HalfEquals(a, b);
    }
  }

  lemma {:induction false} ReverseBit(bit: nat, rest: nat, n: nat)
    requires bit < 2
    ensures Reverse(bit + 2 * rest, n + 1) == (if bit == 1 then Pow2(n) else 0) + Reverse(rest, n)
  {
    assert (bit + 2 * rest) % 2 == bit && (bit + 2 * rest) / 2 == rest;
  }

  lemma {:induction false} Weights(a: nat, b: nat, d: nat, p: nat)
    requires a < 2 && b < 2 && d < 2
    ensures (if a == 1 then 4 * p else 0) + (if b == 1 then 2 * p else 0) + (if d == 1 then p else 0)
         == (4 * a + 2 * b + d) * p
  {
    if a == 0 { if b == 0 {} else {} } else { if b == 0 {} else {} }
  }

  lemma {:induction false} PowStep(n: nat)
    ensures Pow2(n + 1) == 2 * Pow2(n)
  {
  }

  lemma {:induction false} ReverseTwo(a: nat, b: nat, rest: nat, n: nat)
    requires a < 2 && b < 2
    ensures Reverse(a + 2 * (b + 2 * rest), n + 2)
      == (if a == 1 then 2 * Pow2(n) else 0) + (if b == 1 then Pow2(n) else 0) + Reverse(rest, n)
  {
    ReverseBit(b, rest, n);
    ReverseBit(a, b + 2 * rest, n + 1);
    PowStep(n);
  }

  lemma {:induction false} ReverseThree(a: nat, b: nat, d: nat, rest: nat, n: nat)
    requires a < 2 && b < 2 && d < 2
    ensures Reverse(a + 2 * b + 4 * d + 8 * rest, n + 3) == (4 * a + 2 * b + d) * Pow2(n) + Reverse(rest, n)
  {
    var tail := d + 2 * rest;
    ReverseBit(d, rest, n);
    ReverseTwo(a, b, tail, n + 1);
    PowStep(n);
    Weights(a, b, d, Pow2(n));
    assert a + 2 * b + 4 * d + 8 * rest == a + 2 * (b + 2 * tail);
  }

  /** The lowest bits with x in the highest place: the digit reversal puts first. */
  function Digit(c: Cell): (d: nat)
    ensures d < 8
  {
    4 * (c.x % 2) + 2 * (c.y % 2) + c.z % 2
  }

  /** The sort key read as base-8 digits, coarsest coordinate bits last. */
  function Key(c: Cell, w: nat): (k: nat)
    ensures k < Pow8(w)
    decreases w
  {
    if w == 0 then 0 else
      assert Digit(c) * Pow8(w - 1) <= 7 * Pow8(w - 1);
      Digit(c) * Pow8(w - 1) + Key(c.Half(), w - 1)
  }

  /** Reversal turns the lowest coordinate bits into the most significant ones. */
  lemma {:induction false} KeyIsReversedCode(c: Cell, w: nat)
    ensures Key(c, w) == Reverse(Code(c, w), 3 * w)
    decreases w
  {
    if w == 0 {
    } else {
      var n, rest := 3 * (w - 1), Code(c.Half(), w - 1);
      KeyIsReversedCode(c.Half(), w - 1);
      ReverseThree(c.x % 2, c.y % 2, c.z % 2, rest, n);
      CodeDigits(c, w);
      assert n + 3 == 3 * w;
      Pow8IsPow2(w - 1);
    }
  }

  lemma {:induction false} CodeDigits(c: Cell, w: nat)
    requires w > 0
    ensures Code(c, w) == c.x % 2 + 2 * (c.y % 2) + 4 * (c.z % 2) + 8 * Code(c.Half(), w - 1)
  {
  }

  lemma {:induction false} Pow8Monotone(a: nat, b: nat)
    requires a <= b
    ensures Pow8(a) <= Pow8(b)
    decreases b
  {
    if a == b {
    } else {
      Pow8Monotone(a, b - 1);
    }
  }

  lemma {:induction false} DivMod(x: nat, p: nat) returns (k: nat, m: nat)
    requires p > 0
    ensures m == x % p && m < p && x == p * k + m
  {
    k, m := x / p, x % p;
  }

  lemma {:induction false} ProductGrows(p: int, d: int)
    requires p > 0
    ensures d >= 1 ==> p * d >= p
    ensures d <= -1 ==> p * d <= -p
  {
  }

  lemma {:induction false} ModuloUnique(x: nat, p: nat, q: nat, r: nat)
    requires r < p && x == p * q + r
    ensures x % p == r
  {
    var k, m := DivMod(x, p);
    assert p * (q - k) == p * q - p * k == m - r;
    ProductGrows(p, q - k);
  }

  lemma {:induction false} LatticeHalf(x: nat, p: nat)
    requires p > 0
    ensures x % (2 * p) == 0 <==> x % 2 == 0 && x / 2 % p == 0
  {
    var q, r := DivMod(x, 2 * p);
    assert 2 * p * q == 2 * (p * q);
    var half := r / 2;
    assert x / 2 == p * q + half;
    ModuloUnique(x / 2, p, q, half);
  }

  /** Leading digit first: below the unit means the digit is zero. */
  lemma {:induction false} LeadingDigit(top: nat, unit: nat, rest: nat, bound: nat)
    requires rest < unit && bound <= unit
    ensures top * unit + rest < bound <==> top == 0 && rest < bound
  {
    if top > 0 { assert top * unit >= unit; }
  }

  lemma {:induction false} OnLatticeHalf(c: Cell, p: nat)
    requires p > 0
    ensures c.OnLattice(2 * p) <==> Digit(c) == 0 && c.Half().OnLattice(p)
  {
    LatticeHalf(c.x, p);
    LatticeHalf(c.y, p);
    LatticeHalf(c.z, p);
  }

  lemma {:induction false} CoarseKeys(c: Cell, w: nat, j: nat)
    requires j <= w
    ensures Key(c, w) < Pow8(j) <==> c.OnLattice(Pow2(w - j))
    decreases w
  {
    if j == w {
    } else {
      Pow8Monotone(j, w - 1);
      LeadingDigit(Digit(c), Pow8(w - 1), Key(c.Half(), w - 1), Pow8(j));
      CoarseKeys(c.Half(), w - 1, j);
      OnLatticeHalf(c, Pow2(w - 1 - j));
    }
  }

  /** The reversed code is below 8^j exactly for the cells of the j-bit lattice. */
  lemma {:induction false} CoarseExactlyBelow(c: Cell, w: nat, j: nat)
    requires j <= w
    ensures Reverse(Code(c, w), 3 * w) < Pow8(j) <==> c.OnLattice(Pow2(w - j))
  {
    KeyIsReversedCode(c, w);
    CoarseKeys(c, w, j);
  }

  /** Right shift by `n` places, one place at a time. */
  function Shr(v: nat, n: nat): nat {
    if n == 0 then v else Shr(v, n - 1) / 2
  }

  /** The lowest bits of the first `axes` coordinates. */
  function LowBits(c: Cell, axes: nat): nat
    requires axes <= 3
  {
    (if axes > 0 then c.x % 2 else 0) + (if axes > 1 then 2 * (c.y % 2) else 0)
      + (if axes > 2 then 4 * (c.z % 2) else 0)
  }

  lemma {:induction false} OneMoreAxis(c: Cell, bit: nat, axis: nat)
    requires axis < 3
    ensures LowBits(c, axis + 1) * Pow8(bit)
         == LowBits(c, axis) * Pow8(bit) + (if c.At(axis) % 2 == 1 then Pow2(3 * bit + axis) else 0)
    ensures Pow2(3 * bit) == Pow8(bit) && Pow2(3 * bit + axis + 1) == 2 * Pow2(3 * bit + axis)
  {
    Pow8IsPow2(bit);
    var p := Pow8(bit);
    assert Pow2(3 * bit + 1) == 2 * p && Pow2(3 * bit + 2) == 4 * p;
    if c.At(axis) % 2 == 1 {
      if axis == 0 { assert LowBits(c, 1) == 1; }
      if axis == 1 { assert LowBits(c, 2) == LowBits(c, 1) + 2; }
      if axis == 2 { assert LowBits(c, 3) == LowBits(c, 2) + 4; }
    } else {
      assert LowBits(c, axis + 1) == LowBits(c, axis);
    }
  }

  lemma {:induction false} OneMoreBit(c: Cell, bit: nat, left: nat)
    requires left > 0
    ensures LowBits(c, 3) * Pow8(bit) + Pow8(bit + 1) * Code(c.Half(), left - 1) == Pow8(bit) * Code(c, left)
  {
    LowBitsAreLow(c);
    Distribute(Pow8(bit), c.Low(), Code(c.Half(), left - 1));
  }

  lemma {:induction false} LowBitsAreLow(c: Cell)
    ensures LowBits(c, 3) == c.Low()
  {
  }

  lemma {:induction false} Distribute(p: nat, a: nat, b: nat)
    ensures p * (a + 8 * b) == a * p + 8 * p * b
  {
  }

  /** The inner loop, over the axes at one bit.  The bits set so far are all below the
      next one, so setting a bit is adding it. */
  method AddBits(c: Cell, bit: nat, before: nat) returns (morton: nat)
    requires before < Pow8(bit)
    ensures morton == before + LowBits(ShiftDown(c, bit), 3) * Pow8(bit) && morton < Pow8(bit + 1)
  {
    morton := before;
    ghost var rest := ShiftDown(c, bit);
    OneMoreAxis(rest, bit, 0);
    for axis := 0 to 3
      invariant morton < Pow2(3 * bit + axis)
      invariant morton == before + LowBits(rest, axis) * Pow8(bit)
    {
      OneMoreAxis(rest, bit, axis);
      if Shr(c.At(axis), bit) % 2 == 1 {
        morton := morton + Pow2(3 * bit + axis);
      }
    }
    Pow8IsPow2(bit + 1);
    assert 3 * (bit + 1) == 3 * bit + 3;
  }

  function ShiftDown(c: Cell, n: nat): Cell {
    Cell(Shr(c.x, n), Shr(c.y, n), Shr(c.z, n))
  }

  /** What the bits from place `bit` up contribute to the code. */
  function High(c: Cell, bit: nat, w: nat): nat
    requires bit <= w
  {
    Pow8(bit) * Code(ShiftDown(c, bit), w - bit)
  }

  lemma {:induction false} HighStep(c: Cell, bit: nat, w: nat)
    requires bit < w
    ensures High(c, bit, w) == LowBits(ShiftDown(c, bit), 3) * Pow8(bit) + High(c, bit + 1, w)
  {
    OneMoreBit(ShiftDown(c, bit), bit, w - bit);
    assert ShiftDown(c, bit).Half() == ShiftDown(c, bit + 1);
  }

  method MortonCode(c: Cell, w: nat) returns (morton: nat)
    ensures morton == Code(c, w)
  {
    morton := 0;
    assert ShiftDown(c, 0) == c;
    for bit := 0 to w
      invariant morton < Pow8(bit)
      invariant morton + High(c, bit, w) == Code(c, w)
    {
      HighStep(c, bit, w);
      morton := AddBits(c, bit, morton);
    }
  }
}
