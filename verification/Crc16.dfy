/** The 16-bit CRC that protects latch and diagnostics records.

    The reference is bit-serial and works for any register width: a register is a
    sequence of bits, most significant first, and `Feed` pushes one message bit into it.
    `CrcWord`, `Crc16CcittFalse` and `HdmiEvidenceHeaderCrc` are the byte-at-a-time loops
    over machine words, proved against the reference. */
module Crc16 {

  type Register = seq<bool>

  function Zeros(n: nat): (r: Register)
    ensures |r| == n && forall i :: 0 <= i < n ==> !r[i]
  {
    seq(n, i => false)
  }

  function Xor(a: Register, b: Register): (r: Register)
    requires |a| == |b|
    ensures |r| == |a| && forall i :: 0 <= i < |a| ==> r[i] == (a[i] != b[i])
  {
    seq(|a|, i requires 0 <= i < |a| => a[i] != b[i])
  }

  function Shift(r: Register): (s: Register)
    requires |r| > 0
    ensures |s| == |r|
  {
    r[1..] + [false]
  }

  /** One shift of the register with no message bit. */
  function Step(poly: Register, r: Register): (s: Register)
    requires |r| == |poly| > 0
    ensures |s| == |r|
  {
    if r[0] then Xor(Shift(r), poly) else Shift(r)
  }

  function Feed(poly: Register, r: Register, bit: bool): (s: Register)
    requires |r| == |poly| > 0
    ensures |s| == |r|
  {
    Step(poly, [r[0] != bit] + r[1..])
  }

  function FeedAll(poly: Register, r: Register, bits: seq<bool>): (s: Register)
    requires |r| == |poly| > 0
    ensures |s| == |r|
    decreases bits
  {
    if bits == [] then r else FeedAll(poly, Feed(poly, r, bits[0]), bits[1..])
  }

  function Steps(poly: Register, r: Register, n: nat): (s: Register)
    requires |r| == |poly| > 0
    ensures |s| == |r|
    decreases n
  {
    if n == 0 then r else Steps(poly, Step(poly, r), n - 1)
  }

  // ---------------------------------------------------------------- algebra

  lemma {:induction false} FeedAllConcat(poly: Register, r: Register, a: seq<bool>, b: seq<bool>)
    requires |r| == |poly| > 0
    ensures FeedAll(poly, r, a + b) == FeedAll(poly, FeedAll(poly, r, a), b)
    decreases a
  {
    if a == [] {
      assert a + b == b;
    } else {
      assert (a + b)[1..] == a[1..] + b;
      FeedAllConcat(poly, Feed(poly, r, a[0]), a[1..], b);
    }
  }

  lemma {:induction false} StepXor(poly: Register, a: Register, b: Register)
    requires |a| == |b| == |poly| > 0
    ensures Step(poly, Xor(a, b)) == Xor(Step(poly, a), Step(poly, b))
  {
    assert Shift(Xor(a, b)) == Xor(Shift(a), Shift(b));
  }

  lemma {:induction false} FeedXor(poly: Register, a: Register, x: bool, b: Register, y: bool)
    requires |a| == |b| == |poly| > 0
    ensures Feed(poly, Xor(a, b), x != y) == Xor(Feed(poly, a, x), Feed(poly, b, y))
  {
    var a', b' := [a[0] != x] + a[1..], [b[0] != y] + b[1..];
    assert [Xor(a, b)[0] != (x != y)] + Xor(a, b)[1..] == Xor(a', b');
    StepXor(poly, a', b');
  }

  /** The CRC of a difference is the difference of the CRCs. */
  lemma {:induction false} FeedAllXor(poly: Register, a: Register, x: seq<bool>, b: Register, y: seq<bool>)
    requires |a| == |b| == |poly| > 0 && |x| == |y|
    ensures FeedAll(poly, Xor(a, b), Xor(x, y)) == Xor(FeedAll(poly, a, x), FeedAll(poly, b, y))
    decreases x
  {
    if x == [] {
    } else {
      FeedXor(poly, a, x[0], b, y[0]);
      assert Xor(x, y)[1..] == Xor(x[1..], y[1..]);
      FeedAllXor(poly, Feed(poly, a, x[0]), x[1..], Feed(poly, b, y[0]), y[1..]);
    }
  }

  lemma {:induction false} FeedSplit(poly: Register, r: Register, w: Register)
    requires |r| == |w| == |poly| > 0
    ensures Step(poly, Xor(r, w)) == Xor(Feed(poly, r, w[0]), Shift(w))
  {
    var r', w' := [r[0] != w[0]] + r[1..], [false] + w[1..];
    assert Xor(r, w) == Xor(r', w');
    StepXor(poly, r', w');
    assert Shift(w') == Shift(w);
  }

  lemma {:induction false} ShiftedParts(w: Register, n: nat)
    requires 0 < n <= |w|
    ensures w[..n][0] == w[0] && Shift(w)[..n - 1] == w[..n][1..]
    ensures Shift(w)[n - 1..] + Zeros(n - 1) == w[n..] + Zeros(n)
  {
  }

  /** Feeding bits one by one is the same as xoring them in first and shifting; bits
      not fed yet are still there to be xored out. */
  lemma {:induction false} XorInThenShift(poly: Register, r: Register, w: Register, n: nat)
    requires |r| == |w| == |poly| && n <= |w| && |w| > 0
    ensures Steps(poly, Xor(r, w), n) == Xor(FeedAll(poly, r, w[..n]), w[n..] + Zeros(n))
    decreases n
  {
    if n == 0 {
      assert w[..0] == [] && w[0..] + Zeros(0) == w;
    } else {
      FeedSplit(poly, r, w);
      ShiftedParts(w, n);
      XorInThenShift(poly, Feed(poly, r, w[0]), Shift(w), n - 1);
    }
  }

  lemma {:induction false} StepInjective(poly: Register, a: Register, b: Register)
    requires |a| == |b| == |poly| > 0 && poly[|poly| - 1]
    requires Step(poly, a) == Step(poly, b)
    ensures a == b
  {
    var last := |poly| - 1;
    assert Step(poly, a)[last] == a[0] && Step(poly, b)[last] == b[0];
    forall i | 0 < i < |a| ensures a[i] == b[i] {
      assert Step(poly, a)[i - 1] == (a[i] != (a[0] && poly[i - 1]));
      assert Step(poly, b)[i - 1] == (b[i] != (b[0] && poly[i - 1]));
    }
  }

  /** With a polynomial whose constant term is set, shifting never loses information. */
  lemma {:induction false} StepsInjective(poly: Register, a: Register, b: Register, n: nat)
    requires |a| == |b| == |poly| > 0 && poly[|poly| - 1]
    requires Steps(poly, a, n) == Steps(poly, b, n)
    ensures a == b
    decreases n
  {
    if n == 0 {
    } else {
      StepsInjective(poly, Step(poly, a), Step(poly, b), n - 1);
      StepInjective(poly, a, b);
    }
  }

  lemma {:induction false} FeedAllInjective(poly: Register, a: Register, b: Register, bits: seq<bool>)
    requires |a| == |b| == |poly| > 0 && poly[|poly| - 1]
    requires FeedAll(poly, a, bits) == FeedAll(poly, b, bits)
    ensures a == b
    decreases bits
  {
    if bits == [] {
    } else {
      FeedAllInjective(poly, Feed(poly, a, bits[0]), Feed(poly, b, bits[0]), bits[1..]);
      StepInjective(poly, [a[0] != bits[0]] + a[1..], [b[0] != bits[0]] + b[1..]);
      assert ([a[0] != bits[0]] + a[1..])[1..] == a[1..] && ([b[0] != bits[0]] + b[1..])[1..] == b[1..];
      assert a == [a[0]] + a[1..] && b == [b[0]] + b[1..];
    }
  }

  // ---------------------------------------------------------------- what the CRC detects

  /** Two messages that differ, but only inside one window as wide as the register,
      never have the same CRC, wherever the window lies and however long they are. */
  lemma {:induction false} BurstDetected(poly: Register, init: Register, x: seq<bool>, y: seq<bool>, k: nat)
    requires |init| == |poly| > 0 && poly[|poly| - 1]
    requires |x| == |y| && k + |poly| <= |x| && x != y
    requires forall i :: 0 <= i < |x| && !(k <= i < k + |poly|) ==> x[i] == y[i]
    ensures FeedAll(poly, init, x) != FeedAll(poly, init, y)
  {
    var w := k + |poly|;
    Windowed(x, k, w);
    Windowed(y, k, w);
    assert y[..k] == x[..k] && y[w..] == x[w..];
    FeedThreeParts(poly, init, x[..k], x[k..w], x[w..]);
    FeedThreeParts(poly, init, y[..k], y[k..w], y[w..]);
    var start := FeedAll(poly, init, x[..k]);
    if FeedAll(poly, init, x) == FeedAll(poly, init, y) {
      FeedAllInjective(poly, FeedAll(poly, start, x[k..w]), FeedAll(poly, start, y[k..w]), x[w..]);
      WindowInjective(poly, start, x[k..w], y[k..w]);
    }
  }

  lemma {:induction false} Windowed(x: seq<bool>, k: nat, w: nat)
    requires k <= w <= |x|
    ensures x == x[..k] + (x[k..w] + x[w..])
  {
  }

  lemma {:induction false} FeedThreeParts(poly: Register, r: Register, a: seq<bool>, b: seq<bool>, c: seq<bool>)
    requires |r| == |poly| > 0
    ensures FeedAll(poly, r, a + (b + c)) == FeedAll(poly, FeedAll(poly, FeedAll(poly, r, a), b), c)
  {
    FeedAllConcat(poly, r, a, b + c);
    FeedAllConcat(poly, FeedAll(poly, r, a), b, c);
  }

  lemma {:induction false} WholeRegister(poly: Register, r: Register, w: Register)
    requires |r| == |w| == |poly| > 0
    ensures FeedAll(poly, r, w) == Steps(poly, Xor(r, w), |w|)
  {
    XorInThenShift(poly, r, w, |w|);
    assert w[..|w|] == w;
    assert Xor(FeedAll(poly, r, w), w[|w|..] + Zeros(|w|)) == FeedAll(poly, r, w);
  }

  lemma {:induction false} WindowInjective(poly: Register, r: Register, x: seq<bool>, y: seq<bool>)
    requires |r| == |x| == |y| == |poly| > 0 && poly[|poly| - 1]
    requires FeedAll(poly, r, x) == FeedAll(poly, r, y)
    ensures x == y
  {
    WholeRegister(poly, r, x);
    WholeRegister(poly, r, y);
    StepsInjective(poly, Xor(r, x), Xor(r, y), |x|);
    assert x == Xor(Xor(r, x), r) && y == Xor(Xor(r, y), r);
  }

  predicate Odd(bits: seq<bool>) {
    bits != [] && (bits[0] != Odd(bits[1..]))
  }

  lemma {:induction false} OddXor(a: seq<bool>, b: seq<bool>)
    requires |a| == |b|
    ensures Odd(Xor(a, b)) == (Odd(a) != Odd(b))
  {
    if a == [] {
    } else {
      assert Xor(a, b)[1..] == Xor(a[1..], b[1..]);
      OddXor(a[1..], b[1..]);
    }
  }

  lemma {:induction false} OddConcat(a: seq<bool>, b: seq<bool>)
    ensures Odd(a + b) == (Odd(a) != Odd(b))
  {
    if a == [] {
      assert a + b == b;
    } else {
      assert (a + b)[1..] == a[1..] + b;
      OddConcat(a[1..], b);
    }
  }

  lemma {:induction false} ParityFollows(poly: Register, r: Register, bits: seq<bool>)
    requires |r| == |poly| > 0 && Odd(poly)
    ensures Odd(FeedAll(poly, r, bits)) == (Odd(r) != Odd(bits))
    decreases bits
  {
    if bits == [] {
    } else {
      var r' := [r[0] != bits[0]] + r[1..];
      OddConcat(r'[1..], [false]);
      OddXor(Shift(r'), poly);
      ParityFollows(poly, Feed(poly, r, bits[0]), bits[1..]);
    }
  }

  /** With an odd number of terms below the top one (an even number in all), the CRC
      detects every difference in an odd number of bits, however they are scattered. */
  lemma {:induction false} OddErrorsDetected(poly: Register, init: Register, x: seq<bool>, y: seq<bool>)
    requires |init| == |poly| > 0 && Odd(poly)
    requires |x| == |y| && Odd(Xor(x, y))
    ensures FeedAll(poly, init, x) != FeedAll(poly, init, y)
  {
    OddXor(x, y);
    ParityFollows(poly, init, x);
    ParityFollows(poly, init, y);
  }

  // ---------------------------------------------------------------- machine words

  const CCITT: bv16 := 0x1021
  const INITIAL: bv16 := 0xFFFF

  const MASKS: seq<bv16> := [0x8000, 0x4000, 0x2000, 0x1000, 0x0800, 0x0400, 0x0200, 0x0100,
                             0x0080, 0x0040, 0x0020, 0x0010, 0x0008, 0x0004, 0x0002, 0x0001]

  /** The bits of a word, most significant first. */
  function BitsOf(w: bv16): (r: Register)
    ensures |r| == 16 && forall i :: 0 <= i < 16 ==> r[i] == (w & MASKS[i] != 0)
  {
    seq(16, i requires 0 <= i < 16 => w & MASKS[i] != 0)
  }

  /** The message a record stands for. */
  function Message(words: seq<bv16>): (bits: seq<bool>)
    ensures |bits| == 16 * |words|
  {
    if words == [] then [] else BitsOf(words[0]) + Message(words[1..])
  }

  lemma {:induction false} MaskXor(a: bv16, b: bv16, m: bv16)
    requires m & (m - 1) == 0
    ensures (a ^ b) & m != 0 <==> (a & m != 0) != (b & m != 0)
  {
  }

  lemma {:induction false} SingleBits(i: nat)
    requires i < 16
    ensures MASKS[i] & (MASKS[i] - 1) == 0
  {
  }

  lemma {:induction false} NextMask(i: nat)
    requires i < 15
    ensures MASKS[i] == MASKS[i + 1] << 1 && MASKS[i + 1] & 0x8000 == 0
  {
  }

  lemma {:induction false} BitsOfXor(a: bv16, b: bv16)
    ensures BitsOf(a ^ b) == Xor(BitsOf(a), BitsOf(b))
  {
    forall i | 0 <= i < 16 ensures BitsOf(a ^ b)[i] == Xor(BitsOf(a), BitsOf(b))[i] {
      SingleBits(i);
      MaskXor(a, b, MASKS[i]);
    }
  }

  lemma {:induction false} NoBits(d: bv16)
    requires BitsOf(d) == Zeros(16)
    ensures d == 0
  {
    var r := BitsOf(d);
    assert !r[0] && !r[1] && !r[2] && !r[3] && !r[4] && !r[5] && !r[6] && !r[7];
    assert !r[8] && !r[9] && !r[10] && !r[11] && !r[12] && !r[13] && !r[14] && !r[15];
  }

  lemma {:induction false} XorZero(a: bv16, b: bv16)
    requires a ^ b == 0
    ensures a == b
  {
  }

  lemma {:induction false} BitsOfInjective(a: bv16, b: bv16)
    requires BitsOf(a) == BitsOf(b)
    ensures a == b
  {
    BitsOfXor(a, b);
    assert Xor(BitsOf(a), BitsOf(b)) == Zeros(16);
    NoBits(a ^ b);
    XorZero(a, b);
  }

  lemma {:induction false} MaskShift(a: bv16, m: bv16)
    requires m & 0x8000 == 0
    ensures (a << 1) & (m << 1) != 0 <==> a & m != 0
    ensures (a << 1) & 1 == 0
  {
  }

  lemma {:induction false} BitOf(a: bv16, i: nat)
    requires i < 16
    ensures BitsOf(a)[i] <==> a & MASKS[i] != 0
  {
  }

  lemma {:induction false} BitMovesUp(a: bv16, m: bv16, i: nat)
    requires i < 15 && m == MASKS[i + 1]
    ensures BitsOf(a << 1)[i] == BitsOf(a)[i + 1]
  {
    NextMask(i);
    BitOf(a, i + 1);
    BitOf(a << 1, i);
    MaskShift(a, m);
  }

  lemma {:induction false} LastBitClears(a: bv16)
    ensures !BitsOf(a << 1)[15]
  {
    BitOf(a << 1, 15);
    MaskShift(a, 0);
  }

  lemma {:induction false} BitsOfShift(a: bv16)
    ensures BitsOf(a << 1) == Shift(BitsOf(a))
  {
    forall i | 0 <= i < 16 ensures BitsOf(a << 1)[i] == Shift(BitsOf(a))[i] {
      if i < 15 { BitMovesUp(a, MASKS[i + 1], i); } else { LastBitClears(a); }
    }
  }

  /** The CRC of a record as a register, from any start value. */
  function Crc(poly: bv16, crc: bv16, words: seq<bv16>): (r: Register)
    ensures |r| == 16
  {
    FeedAll(BitsOf(poly), BitsOf(crc), Message(words))
  }

  lemma {:induction false} MessageConcat(a: seq<bv16>, b: seq<bv16>)
    ensures Message(a + b) == Message(a) + Message(b)
  {
    if a == [] {
      assert a + b == b;
    } else {
      assert (a + b)[1..] == a[1..] + b;
      MessageConcat(a[1..], b);
    }
  }

  lemma {:induction false} MessageInjective(a: seq<bv16>, b: seq<bv16>)
    requires |a| == |b| && Message(a) == Message(b)
    ensures a == b
  {
    if a == [] {
    } else {
      assert BitsOf(a[0]) == Message(a)[..16] == Message(b)[..16] == BitsOf(b[0]);
      assert Message(a[1..]) == Message(a)[16..] == Message(b)[16..] == Message(b[1..]);
      BitsOfInjective(a[0], b[0]);
      MessageInjective(a[1..], b[1..]);
    }
  }

  /** Two different records of equal length that differ only inside 16 consecutive bits,
      at any bit offset, have different CRCs. */
  lemma {:induction false} RecordBurstDetected(crc: bv16, a: seq<bv16>, b: seq<bv16>, k: nat)
    requires |a| == |b| && a != b && k + 16 <= 16 * |a|
    requires forall i :: 0 <= i < 16 * |a| && !(k <= i < k + 16) ==> Message(a)[i] == Message(b)[i]
    ensures Crc(CCITT, crc, a) != Crc(CCITT, crc, b)
  {
    if Message(a) == Message(b) {
      MessageInjective(a, b);
    }
    assert BitsOf(CCITT)[15] == (CCITT & MASKS[15] != 0);
    BurstDetected(BitsOf(CCITT), BitsOf(crc), Message(a), Message(b), k);
  }

  /** Records that differ in an odd number of bits have different CRCs. */
  lemma {:induction false} RecordOddErrorsDetected(crc: bv16, a: seq<bv16>, b: seq<bv16>)
    requires |a| == |b| && Odd(Xor(Message(a), Message(b)))
    ensures Crc(CCITT, crc, a) != Crc(CCITT, crc, b)
  {
    var p := BitsOf(CCITT);
    var high, low := [false, false, false, true], [false, false, true, false, false, false, false, true];
    forall i | 0 <= i < 16 ensures p[i] == (i == 3 || i == 10 || i == 15) {
      assert p[i] == (CCITT & MASKS[i] != 0);
    }
    assert p == high + (high[..3] + [false] + low);
    assert high[..3] + [false] + low == [false, false, false, false] + low;
    OddConcat(high, [false, false, false, false] + low);
    OddConcat([false, false, false, false], low);
    OddConcat(low[..4], low[4..]);
    assert low == low[..4] + low[4..];
    OddErrorsDetected(p, BitsOf(crc), Message(a), Message(b));
  }

  /** Continuing from the CRC of a prefix gives the CRC of the whole record. */
  lemma {:induction false} ContinueFromPrefix(poly: bv16, crc: bv16, a: seq<bv16>, b: seq<bv16>, mid: bv16)
    requires BitsOf(mid) == Crc(poly, crc, a)
    ensures Crc(poly, crc, a + b) == Crc(poly, mid, b)
  {
    MessageConcat(a, b);
    FeedAllConcat(BitsOf(poly), BitsOf(crc), Message(a), Message(b));
  }

  /** A record followed by its own CRC leaves the register at zero. */
  lemma {:induction false} OwnCrcLeavesZero(poly: bv16, crc: bv16, words: seq<bv16>, own: bv16)
    requires BitsOf(own) == Crc(poly, crc, words)
    ensures Crc(poly, crc, words + [own]) == Zeros(16)
  {
    ContinueFromPrefix(poly, crc, words, [own], own);
    assert Message([own]) == BitsOf(own) + Message([]) == BitsOf(own);
    WholeRegister(BitsOf(poly), BitsOf(own), BitsOf(own));
    assert Xor(BitsOf(own), BitsOf(own)) == Zeros(16);
    StepsOfZero(BitsOf(poly), 16);
  }

  lemma {:induction false} StepsOfZero(poly: Register, n: nat)
    requires |poly| > 0
    ensures Steps(poly, Zeros(|poly|), n) == Zeros(|poly|)
  {
    if n == 0 {
    } else {
      assert Shift(Zeros(|poly|)) == Zeros(|poly|);
      StepsOfZero(poly, n - 1);
    }
  }

  // ---------------------------------------------------------------- the loops

  function ShiftOnce(r: bv16, poly: bv16): bv16 {
    if r & 0x8000 != 0 then (r << 1) ^ poly else r << 1
  }

  lemma {:induction false} ShiftOnceIsStep(r: bv16, poly: bv16)
    ensures BitsOf(ShiftOnce(r, poly)) == Step(BitsOf(poly), BitsOf(r))
  {
    BitsOfShift(r);
    BitsOfXor(r << 1, poly);
    BitOf(r, 0);
  }

  method ShiftByte(crc: bv16, poly: bv16) returns (r: bv16)
    ensures BitsOf(r) == Steps(BitsOf(poly), BitsOf(crc), 8)
  {
    r := crc;
    for i := 0 to 8
      invariant Steps(BitsOf(poly), BitsOf(r), 8 - i) == Steps(BitsOf(poly), BitsOf(crc), 8)
    {
      ShiftOnceIsStep(r, poly);
      r := ShiftOnce(r, poly);
    }
  }

  lemma {:induction false} HighByte(w: bv16)
    ensures BitsOf(((w >> 8) & 0xFF) << 8) == BitsOf(w)[..8] + Zeros(8)
  {
    forall i | 0 <= i < 16
      ensures BitsOf(((w >> 8) & 0xFF) << 8)[i] == (BitsOf(w)[..8] + Zeros(8))[i]
    {
      SingleBits(i);
      HighByteMask(w, MASKS[i]);
      HighMasks(i);
    }
  }

  lemma {:induction false} HighMasks(i: nat)
    requires i < 16
    ensures MASKS[i] & 0xFF00 == if i < 8 then MASKS[i] else 0
    ensures i >= 8 ==> MASKS[i] == MASKS[i - 8] >> 8
  {
  }

  lemma {:induction false} HighByteMask(w: bv16, m: bv16)
    ensures m & 0xFF00 == m ==> (((w >> 8) & 0xFF) << 8) & m == w & m
    ensures m & 0xFF00 == 0 ==> (((w >> 8) & 0xFF) << 8) & m == 0
  {
  }

  lemma {:induction false} LowByteUp(w: bv16, m: bv16, i: nat)
    requires i < 8 && m == MASKS[i]
    ensures BitsOf((w & 0xFF) << 8)[i] == BitsOf(w)[i + 8]
  {
    HighMasks(i);
    HighMasks(i + 8);
    BitOf(w, i + 8);
    LowByteMask(w, m);
    BitOf((w & 0xFF) << 8, i);
  }

  lemma {:induction false} LowByteEmpty(w: bv16, m: bv16, i: nat)
    requires 8 <= i < 16 && m == MASKS[i]
    ensures !BitsOf((w & 0xFF) << 8)[i]
  {
    HighMasks(i);
    LowByteMask(w, m);
    BitOf((w & 0xFF) << 8, i);
  }

  lemma {:induction false} LowByte(w: bv16)
    ensures BitsOf((w & 0xFF) << 8) == BitsOf(w)[8..] + Zeros(8)
  {
    forall i | 0 <= i < 16 ensures BitsOf((w & 0xFF) << 8)[i] == (BitsOf(w)[8..] + Zeros(8))[i] {
      if i < 8 { LowByteUp(w, MASKS[i], i); } else { LowByteEmpty(w, MASKS[i], i); }
    }
  }

  lemma {:induction false} LowByteMask(w: bv16, m: bv16)
    ensures m & 0xFF00 == m ==> (((w & 0xFF) << 8) & m != 0 <==> w & (m >> 8) != 0)
    ensures m & 0xFF00 == 0 ==> ((w & 0xFF) << 8) & m == 0
  {
  }

  lemma {:induction false} ByteFed(poly: Register, r: Register, byte: seq<bool>)
    requires |r| == |poly| == 16 && |byte| == 8
    ensures Steps(poly, Xor(r, byte + Zeros(8)), 8) == FeedAll(poly, r, byte)
  {
    var w := byte + Zeros(8);
    XorInThenShift(poly, r, w, 8);
    assert w[..8] == byte && w[8..] + Zeros(8) == Zeros(16);
    assert Xor(FeedAll(poly, r, byte), Zeros(16)) == FeedAll(poly, r, byte);
  }

  /** One half of a word, shifted to the top, is fed. */
  method FeedByte(crc: bv16, high: bv16, polynomial: bv16, ghost byte: seq<bool>) returns (r: bv16)
    requires |byte| == 8 && BitsOf(high) == byte + Zeros(8)
    ensures BitsOf(r) == FeedAll(BitsOf(polynomial), BitsOf(crc), byte)
  {
    BitsOfXor(crc, high);
    ByteFed(BitsOf(polynomial), BitsOf(crc), byte);
    r := ShiftByte(crc ^ high, polynomial);
  }

  method CrcWord(crc: bv16, word: bv16, polynomial: bv16) returns (r: bv16)
    ensures BitsOf(r) == FeedAll(BitsOf(polynomial), BitsOf(crc), BitsOf(word))
  {
    HighByte(word);
    r := FeedByte(crc, ((word >> 8) & 0xFF) << 8, polynomial, BitsOf(word)[..8]);
    LowByte(word);
    r := FeedByte(r, (word & 0xFF) << 8, polynomial, BitsOf(word)[8..]);
    FeedAllConcat(BitsOf(polynomial), BitsOf(crc), BitsOf(word)[..8], BitsOf(word)[8..]);
    assert BitsOf(word) == BitsOf(word)[..8] + BitsOf(word)[8..];
  }

  lemma {:induction false} MessageSnoc(poly: bv16, crc: bv16, words: seq<bv16>, n: nat, r: bv16)
    requires n < |words| && BitsOf(r) == Crc(poly, crc, words[..n])
    ensures Crc(poly, crc, words[..n + 1]) == FeedAll(BitsOf(poly), BitsOf(r), BitsOf(words[n]))
  {
    assert words[..n + 1] == words[..n] + [words[n]];
    ContinueFromPrefix(poly, crc, words[..n], [words[n]], r);
    assert Message([words[n]]) == BitsOf(words[n]) + Message([]) == BitsOf(words[n]);
  }

  method Crc16CcittFalse(words: seq<bv16>) returns (crc: bv16)
    ensures BitsOf(crc) == Crc(CCITT, INITIAL, words)
  {
    crc := INITIAL;
    for n := 0 to |words|
      invariant BitsOf(crc) == Crc(CCITT, INITIAL, words[..n])
    {
      MessageSnoc(CCITT, INITIAL, words, n, crc);
      crc := CrcWord(crc, words[n], CCITT);
    }
    assert words[..|words|] == words;
  }

  /** The header CRC and schema CRC the generator precomputes for a record. */
  method HdmiEvidenceHeaderCrc(command: bv16, schema: bv16, wordCount: bv16, initial: bv16, polynomial: bv16)
    returns (headerCrc: bv16, schemaCrc: bv16)
    ensures forall body: seq<bv16> ::
      var header := [command, schema, wordCount - 1];
      && Crc(polynomial, headerCrc, body) == Crc(polynomial, initial, header + body)
      && Crc(polynomial, schemaCrc, body) == Crc(polynomial, initial, header + [schema] + body)
  {
    var words := [command, schema, wordCount - 1, schema];
    headerCrc := initial;
    for n := 0 to 3
      invariant BitsOf(headerCrc) == Crc(polynomial, initial, words[..n])
    {
      MessageSnoc(polynomial, initial, words, n, headerCrc);
      headerCrc := CrcWord(headerCrc, words[n], polynomial);
    }
    MessageSnoc(polynomial, initial, words, 3, headerCrc);
    schemaCrc := CrcWord(headerCrc, schema, polynomial);
    forall body: seq<bv16>
      ensures Crc(polynomial, headerCrc, body) == Crc(polynomial, initial, words[..3] + body)
      ensures Crc(polynomial, schemaCrc, body) == Crc(polynomial, initial, words[..4] + body)
    {
      ContinueFromPrefix(polynomial, initial, words[..3], body, headerCrc);
      ContinueFromPrefix(polynomial, initial, words[..4], body, schemaCrc);
    }
    assert words[..3] == [command, schema, wordCount - 1];
    assert words[..4] == [command, schema, wordCount - 1] + [schema];
  }
}
