/** The interleaved code and its reversal, bit by bit. */
module MortonBits {
  import opened Morton

  /** Bit `i` of `m`. */
  function BitOf(m: nat, i: nat): (b: nat)
    ensures b < 2
    decreases i
  {
    if i == 0 then m % 2 else BitOf(m / 2, i - 1)
  }

  lemma {:induction false} ThreePlaces(low: nat, rest: nat, i: nat)
    requires low < 8
    ensures BitOf(low + 8 * rest, i) == if i < 3 then BitOf(low, i) else BitOf(rest, i - 3)
  {
    var m := low + 8 * rest;
    assert m / 2 == low / 2 + 4 * rest && m / 2 / 2 == low / 4 + 2 * rest && m / 2 / 2 / 2 == rest;
    assert m % 2 == low % 2 && m / 2 % 2 == low / 2 % 2 && m / 2 / 2 % 2 == low / 4 % 2;
    assert low / 2 / 2 == low / 4;
    if i >= 3 {
      assert BitOf(m, i) == BitOf(m / 2, i - 1) == BitOf(m / 2 / 2, i - 2);
    } else if i == 2 {
      assert BitOf(m, 2) == BitOf(m / 2, 1) == BitOf(m / 2 / 2, 0);
      assert BitOf(low, 2) == BitOf(low / 2, 1) == BitOf(low / 2 / 2, 0);
    }
  }

  lemma {:induction false} LowBit(c: Cell, axis: nat)
    requires axis < 3
    ensures BitOf(c.Low(), axis) == c.At(axis) % 2
  {
    var x, y, z := c.x % 2, c.y % 2, c.z % 2;
    var low := x + 2 * y + 4 * z;
    assert low % 2 == x && low / 2 == y + 2 * z && low / 2 % 2 == y && low / 2 / 2 == z;
    if axis == 1 {
      assert BitOf(low, 1) == BitOf(low / 2, 0);
    } else if axis == 2 {
      assert BitOf(low, 2) == BitOf(low / 2, 1) == BitOf(low / 2 / 2, 0);
    }
  }

  /** Place `3 * bit + axis` of the code holds bit `bit` of coordinate `axis`. */
  lemma {:induction false} CodeBits(c: Cell, w: nat, bit: nat, axis: nat)
    requires bit < w && axis < 3
    ensures BitOf(Code(c, w), 3 * bit + axis) == BitOf(c.At(axis), bit)
    decreases w
  {
    var i := 3 * bit + axis;
    ThreePlaces(c.Low(), Code(c.Half(), w - 1), i);
    if bit == 0 {
      LowBit(c, axis);
    } else {
      CodeBits(c.Half(), w - 1, bit - 1, axis);
      assert i - 3 == 3 * (bit - 1) + axis;
      assert c.Half().At(axis) == c.At(axis) / 2;
    }
  }

  lemma {:induction false} TopBit(top: nat, k: nat, rest: nat, i: nat)
    requires top < 2 && rest < Pow2(k) && i <= k
    ensures BitOf((if top == 1 then Pow2(k) else 0) + rest, i) == if i == k then top else BitOf(rest, i)
    decreases k
  {
    var m := (if top == 1 then Pow2(k) else 0) + rest;
    if k == 0 {
    } else {
      var half := (if top == 1 then Pow2(k - 1) else 0) + rest / 2;
      assert Pow2(k) == 2 * Pow2(k - 1);
      assert m % 2 == rest % 2 && m / 2 == half;
      if i > 0 { TopBit(top, k - 1, rest / 2, i - 1); }
    }
  }

  /** Reversal: the place counted from the other end. */
  lemma {:induction false} ReverseBits(m: nat, n: nat, i: nat)
    requires i < n
    ensures BitOf(Reverse(m, n), i) == BitOf(m, n - 1 - i)
    decreases n
  {
    TopBit(m % 2, n - 1, Reverse(m / 2, n - 1), i);
    if i < n - 1 {
      ReverseBits(m / 2, n - 1, i);
    }
  }

  /** The sort key of a cell: place `3 * w - 1 - (3 * bit + axis)` holds bit `bit` of coordinate
      `axis`, so the lowest bits of the coordinates come first. */
  lemma {:induction false} KeyBits(c: Cell, w: nat, bit: nat, axis: nat)
    requires bit < w && axis < 3
    ensures BitOf(Reverse(Code(c, w), 3 * w), 3 * w - 1 - (3 * bit + axis)) == BitOf(c.At(axis), bit)
  {
    ReverseBits(Code(c, w), 3 * w, 3 * w - 1 - (3 * bit + axis));
    CodeBits(c, w, bit, axis);
  }
}
