/** The record CRC one word at a time: a word is xored in and the register shifted sixteen times. */
module CrcByWords {
  import opened Crc16

  /** One shift: the bits move up, and a one that falls out brings in x^12 + x^5 + 1. */
  function Shifted(r: bv16): bv16 {
    if r >= 0x8000 then (r << 1) ^ 0x1021 else r << 1
  }

  function ShiftedBy(r: bv16, n: nat): bv16
    decreases n
  {
    if n == 0 then r else ShiftedBy(Shifted(r), n - 1)
  }

  function NextCrc(crc: bv16, word: bv16, width: nat): bv16 {
    ShiftedBy(crc ^ word, width)
  }

  /** Every word is xored in and followed by `width` shifts. */
  function RecordCrc(crc: bv16, words: seq<bv16>, width: nat): bv16
    decreases words
  {
    if words == [] then crc else RecordCrc(NextCrc(crc, words[0], width), words[1..], width)
  }

  lemma {:induction false} ShiftedIsStep(r: bv16)
    ensures BitsOf(Shifted(r)) == Step(BitsOf(CCITT), BitsOf(r))
  {
    assert r >= 0x8000 <==> r & 0x8000 != 0;
    ShiftOnceIsStep(r, CCITT);
  }

  lemma {:induction false} ShiftedIsSteps(r: bv16, n: nat)
    ensures BitsOf(ShiftedBy(r, n)) == Steps(BitsOf(CCITT), BitsOf(r), n)
    decreases n
  {
    if n == 0 {
    } else {
      ShiftedIsStep(r);
      ShiftedIsSteps(Shifted(r), n - 1);
    }
  }

  lemma {:induction false} OneWord(crc: bv16, word: bv16, width: nat)
    requires width == 16
    ensures Crc(CCITT, crc, [word]) == BitsOf(NextCrc(crc, word, width))
  {
    BitsOfXor(crc, word);
    WholeRegister(BitsOf(CCITT), BitsOf(crc), BitsOf(word));
    ShiftedIsSteps(crc ^ word, width);
    assert Message([word]) == BitsOf(word) + Message([]) == BitsOf(word);
  }

  lemma {:induction false} NoWords(poly: bv16, crc: bv16)
    ensures Crc(poly, crc, []) == BitsOf(crc)
  {
  }

  lemma {:induction false} FirstWord(poly: bv16, crc: bv16, words: seq<bv16>, next: bv16)
    requires words != [] && BitsOf(next) == Crc(poly, crc, [words[0]])
    ensures Crc(poly, crc, words) == Crc(poly, next, words[1..])
  {
    ContinueFromPrefix(poly, crc, [words[0]], words[1..], next);
    assert words == [words[0]] + words[1..];
  }

  /** The CRC of a record, from any start, is the one computed word by word. */
  lemma {:induction false} CrcOfWords(crc: bv16, words: seq<bv16>, width: nat)
    requires width == 16
    ensures Crc(CCITT, crc, words) == BitsOf(RecordCrc(crc, words, width))
    decreases words
  {
    if words == [] {
      NoWords(CCITT, crc);
    } else {
      var next := NextCrc(crc, words[0], width);
      OneWord(crc, words[0], width);
      CrcOfWords(next, words[1..], width);
      FirstWord(CCITT, crc, words, next);
    }
  }

  /** What `Crc16CcittFalse` returns: it starts with all ones, goes through the words in order, and
      does not change the final register. */
  lemma {:induction false} FalseCrc(words: seq<bv16>, crc: bv16, width: nat)
    requires width == 16
    ensures BitsOf(crc) == Crc(CCITT, INITIAL, words) <==> crc == RecordCrc(0xFFFF, words, width)
  {
    CrcOfWords(0xFFFF, words, width);
    if BitsOf(crc) == Crc(CCITT, INITIAL, words) {
      BitsOfInjective(crc, RecordCrc(0xFFFF, words, width));
    }
  }

  lemma {:induction false} MessageTail(words: seq<bv16>, at: nat)
    requires words != [] && at < 16 * |words|
    ensures Message(words)[at] == if at < 16 then BitsOf(words[0])[at] else Message(words[1..])[at - 16]
  {
  }

  /** The bits of a record are those of its words in order. */
  lemma {:induction false} MessageBits(words: seq<bv16>, k: nat, i: nat, at: nat)
    requires k < |words| && i < 16 && at == 16 * k + i
    ensures Message(words)[at] == BitsOf(words[k])[i]
    decreases words
  {
    MessageTail(words, at);
    if k > 0 {
      MessageBits(words[1..], k - 1, i, at - 16);
    }
  }

  /** The mask of bit `i` is the one that moves up to the sixteenth place in `i` shifts. */
  lemma {:induction false} MaskExactly(i: nat)
    requires i < 16
    ensures MASKS[0] == 0x8000 && (i > 0 ==> MASKS[i - 1] == MASKS[i] << 1)
  {
    if i > 0 { NextMask(i - 1); }
  }

  // ---------------------------------------------------------------- a known value

  lemma {:induction false} ShiftedInTurn(values: seq<bv16>)
    requires values != [] && forall i :: 0 < i < |values| ==> values[i] == Shifted(values[i - 1])
    ensures ShiftedBy(values[0], |values| - 1) == values[|values| - 1]
  {
    if |values| > 1 { ShiftedInTurn(values[1..]); }
  }

  /** The record of the one word 0x3132, the characters 1 and 2. */
  lemma {:induction false} KnownWord(width: nat)
    requires width == 16
    ensures RecordCrc(0xFFFF, [0x3132], width) == 0x3DBA
  {
    var values: seq<bv16> := [0xCECD, 0x8DBB, 0x0B57, 0x16AE, 0x2D5C, 0x5AB8, 0xB570, 0x7AC1, 0xF582,
                              0xFB25, 0xE66B, 0xDCF7, 0xA9CF, 0x43BF, 0x877E, 0x1EDD, 0x3DBA];
    ShiftedInTurn(values);
  }
}
