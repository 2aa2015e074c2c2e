/** A value of the hash that the repository's own tests fix. */
module Cyrb53Vector {
  import opened Cyrb53

  /** A 32-bit word from its hexadecimal digits. */
  function Word(x7: int, x6: int, x5: int, x4: int, x3: int, x2: int, x1: int, x0: int): int {
    16 * (16 * (16 * (16 * (16 * (16 * (16 * x7 + x6) + x5) + x4) + x3) + x2) + x1) + x0
  }

  predicate Digit(x: int) { 0 <= x < 16 }

  function Odd(i: bool, j: bool): int { if i == j then 0 else 1 }

  function Below(x: int, m: int): int { if x >= m then x - m else x }

  // the exclusive or of one to four bits, without a division
  function Xor1(x: int, y: int): int { Odd(x >= 1, y >= 1) }
  function Xor2(x: int, y: int): int { 2 * Odd(x >= 2, y >= 2) + Xor1(Below(x, 2), Below(y, 2)) }
  function Xor3(x: int, y: int): int { 4 * Odd(x >= 4, y >= 4) + Xor2(Below(x, 4), Below(y, 4)) }
  function Xor4(x: int, y: int): int { 8 * Odd(x >= 8, y >= 8) + Xor3(Below(x, 8), Below(y, 8)) }

  /** High and low parts are combined separately. */
  lemma {:induction false} XorSplit(a: int, b: int, c: int, d: int, k: nat)
    requires 0 <= b < Pow2(k) && 0 <= d < Pow2(k)
    ensures Xor(Pow2(k) * a + b, Pow2(k) * c + d) == Pow2(k) * Xor(a, c) + Xor(b, d)
    decreases k
  {
    hide Xor;
    if k == 0 {
      XorZero();
    } else {
      var p := Pow2(k - 1);
      assert 2 * p * a == 2 * (p * a) && 2 * p * c == 2 * (p * c);
      XorUnfolds(Pow2(k) * a + b, Pow2(k) * c + d);
      XorUnfolds(b, d);
      XorSplit(a, b / 2, c, d / 2, k - 1);
    }
  }

  lemma {:induction false} XorBit(x: int, y: int)
    requires 0 <= x < 2 && 0 <= y < 2
    ensures Xor(x, y) == Odd(x >= 1, y >= 1)
  {
    hide Xor;
    XorUnfolds(x, y);
    XorZero();
  }

  lemma {:induction false} TopBit(x: int, y: int, k: nat)
    requires 0 <= x < 2 * Pow2(k) && 0 <= y < 2 * Pow2(k)
    ensures var m := Pow2(k);
            && 0 <= Below(x, m) < m && 0 <= Below(y, m) < m
            && Xor(x, y) == m * Odd(x >= m, y >= m) + Xor(Below(x, m), Below(y, m))
  {
    hide Xor, Pow2;
    var m := Pow2(k);
    var i, j := if x >= m then 1 else 0, if y >= m then 1 else 0;
    XorBit(i, j);
    XorSplit(i, Below(x, m), j, Below(y, m), k);
  }

  lemma {:induction false} XorIsXor4(x: int, y: int)
    requires Digit(x) && Digit(y)
    ensures Xor(x, y) == Xor4(x, y)
  {
    hide Xor, Odd;
    assert Pow2(1) == 2 && Pow2(2) == 4 && Pow2(3) == 8;
    TopBit(x, y, 3);
    TopBit(Below(x, 8), Below(y, 8), 2);
    TopBit(Below(Below(x, 8), 4), Below(Below(y, 8), 4), 1);
    XorBit(Below(Below(Below(x, 8), 4), 2), Below(Below(Below(y, 8), 4), 2));
  }

  lemma {:induction false} XorNibble(a: int, b: int, c: int, d: int)
    requires Digit(b) && Digit(d)
    ensures Xor(16 * a + b, 16 * c + d) == 16 * Xor(a, c) + Xor4(b, d)
  {
    hide Xor, Xor4;
    assert Pow2(4) == 16;
    XorSplit(a, b, c, d, 4);
    XorIsXor4(b, d);
  }

  lemma {:induction false} XorWords(
    x7: int, x6: int, x5: int, x4: int, x3: int, x2: int, x1: int, x0: int,
    y7: int, y6: int, y5: int, y4: int, y3: int, y2: int, y1: int, y0: int)
    requires Digit(x7) && Digit(x6) && Digit(x5) && Digit(x4) && Digit(x3) && Digit(x2) && Digit(x1) && Digit(x0)
    requires Digit(y7) && Digit(y6) && Digit(y5) && Digit(y4) && Digit(y3) && Digit(y2) && Digit(y1) && Digit(y0)
    ensures Xor(Word(x7, x6, x5, x4, x3, x2, x1, x0), Word(y7, y6, y5, y4, y3, y2, y1, y0)) ==
            Word(Xor4(x7, y7), Xor4(x6, y6), Xor4(x5, y5), Xor4(x4, y4),
                 Xor4(x3, y3), Xor4(x2, y2), Xor4(x1, y1), Xor4(x0, y0))
  {
    hide Xor, Xor4;
    XorIsXor4(x7, y7);
    XorNibble(x7, x6, y7, y6);
    var a, b := 16 * x7 + x6, 16 * y7 + y6;
    XorNibble(a, x5, b, y5);
    a, b := 16 * a + x5, 16 * b + y5;
    XorNibble(a, x4, b, y4);
    a, b := 16 * a + x4, 16 * b + y4;
    XorNibble(a, x3, b, y3);
    a, b := 16 * a + x3, 16 * b + y3;
    XorNibble(a, x2, b, y2);
    a, b := 16 * a + x2, 16 * b + y2;
    XorNibble(a, x1, b, y1);
    a, b := 16 * a + x1, 16 * b + y1;
    XorNibble(a, x0, b, y0);
  }

  lemma {:induction false} XorNone(a: int)
    ensures Xor(a, 0) == a
    decreases Magnitude(a)
  {
    if Magnitude(a) > 0 { XorNone(a / 2); }
  }

  lemma {:induction false} SeedFirst()
    ensures Xor(3735928559, 97) == 3735928462
  {
    hide Xor;
    XorWords(13, 14, 10, 13, 11, 14, 14, 15,
             0, 0, 0, 0, 0, 0, 6, 1);
  }

  lemma {:induction false} SeedSecond()
    ensures Xor(1103547991, 97) == 1103547958
  {
    hide Xor;
    XorWords(4, 1, 12, 6, 12, 14, 5, 7,
             0, 0, 0, 0, 0, 0, 6, 1);
  }

  lemma {:induction false} ShiftFirst()
    ensures Xor(2847137326, 43443) == 2847111069
  {
    hide Xor;
    XorWords(10, 9, 11, 3, 13, 14, 2, 14,
             0, 0, 0, 0, 10, 9, 11, 3);
  }

  lemma {:induction false} ShiftSecond()
    ensures Xor(2893094254, 353160) == 2893315814
  {
    hide Xor;
    XorWords(10, 12, 7, 1, 1, 13, 6, 14,
             0, 0, 0, 5, 6, 3, 8, 8);
  }

  lemma {:induction false} JoinFirst()
    ensures Xor(3900956831, 1783273886) == 2194241793
  {
    hide Xor;
    XorWords(14, 8, 8, 3, 14, 0, 9, 15,
             6, 10, 4, 10, 9, 9, 9, 14);
  }

  lemma {:induction false} ShiftSecondAgain()
    ensures Xor(2893094254, 44145) == 2893132063
  {
    hide Xor;
    XorWords(10, 12, 7, 1, 1, 13, 6, 14,
             0, 0, 0, 0, 10, 12, 7, 1);
  }

  lemma {:induction false} ShiftJoined()
    ensures Xor(2194241793, 267851) == 2194501450
  {
    hide Xor;
    XorWords(8, 2, 12, 9, 7, 9, 0, 1,
             0, 0, 0, 4, 1, 6, 4, 11);
  }

  lemma {:induction false} JoinSecond()
    ensures Xor(2075950581, 731928146) == 1344023463
  {
    hide Xor;
    XorWords(7, 11, 11, 12, 7, 13, 15, 5,
             2, 11, 10, 0, 5, 6, 5, 2);
  }

  lemma {:induction false} WordsOfA()
    ensures AbsorbAll(Xor(0xDEADBEEF, 0), [97], 2654435761) == 2847137326
    ensures AbsorbAll(Xor(0x41C6CE57, 0), [97], 1597334677) == 2893094254
    ensures AbsorbAll(Xor(0xDEADBEEF, 97), [0], 2654435761) == 2847137326
    ensures AbsorbAll(Xor(0x41C6CE57, 97), [0], 1597334677) == 2893094254
  {
    hide Xor;
    assert [97][..0] == [] && [0][..0] == [];
    SeedFirst();
    SeedSecond();
    XorNone(0xDEADBEEF);
    XorNone(0x41C6CE57);
    XorNone(Xor(0xDEADBEEF, 97));
    XorNone(Xor(0x41C6CE57, 97));
  }

  lemma {:induction false} FinishedA()
    ensures Finished(2847137326, 2893094254) == 7929297801672961
  {
    hide Xor, Pow2;
    PowersOfTwo();
    ShiftFirst();
    ShiftSecond();
    JoinFirst();
    ShiftSecondAgain();
    ShiftJoined();
    JoinSecond();
    assert Mix(2847137326, 16, 2246822507) == 3900956831 && Mix(2893094254, 13, 3266489909) == 1783273886;
    assert Mix(2893094254, 16, 2246822507) == 2075950581 && Mix(2194241793, 13, 3266489909) == 731928146;
  }

  /** The text "a" with seed 0; a seed of 97 in front of a zero character gives the same. */
  lemma {:induction false} HashOfA()
    ensures Reference([97], 0) == 7929297801672961
    ensures Reference([0], 97) == 7929297801672961
  {
    hide Xor, AbsorbAll, Finished;
    WordsOfA();
    FinishedA();
  }

  /** A text is absorbed from left to right, character by character. */
  lemma {:induction false} AbsorbConcat(u: int, text: seq<int>, more: seq<int>, factor: int)
    ensures AbsorbAll(u, text + more, factor) == AbsorbAll(AbsorbAll(u, text, factor), more, factor)
    decreases |more|
  {
    hide Absorb;
    var all := text + more;
    if more == [] {
      assert all == text;
    } else {
      assert all[..|all| - 1] == text + more[..|more| - 1];
      AbsorbConcat(u, text, more[..|more| - 1], factor);
    }
  }
}
