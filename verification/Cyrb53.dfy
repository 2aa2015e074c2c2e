/** The request signature: JavaScript's 32-bit arithmetic emulated on unbounded integers, and the
    unsigned 32-bit computation it has to agree with. */
module Cyrb53 {

  const WORD: int := 0x1_0000_0000
  const HALF: int := 0x8000_0000

  function Pow2(k: nat): (p: int)
    ensures p > 0
  {
    if k == 0 then 1 else 2 * Pow2(k - 1)
  }

  /** Distance to the nearer of 0 and -1, the two fixed points of halving. */
  function Magnitude(a: int): nat { if a < 0 then -a - 1 else a }

  function Bit(a: int, i: nat): int
    decreases i
  {
    if i == 0 then a % 2 else Bit(a / 2, i - 1)
  }

  /** Python's `^` on integers of any size, in infinite two's complement. */
  function Xor(a: int, b: int): int
    decreases Magnitude(a) + Magnitude(b)
  {
    if Magnitude(a) == 0 && Magnitude(b) == 0 then (if a == b then 0 else -1)
    else 2 * Xor(a / 2, b / 2) + (a % 2 + b % 2) % 2
  }

  /** Python's `&`. */
  function And(a: int, b: int): int
    decreases Magnitude(a) + Magnitude(b)
  {
    if Magnitude(a) == 0 && Magnitude(b) == 0 then (if a == -1 && b == -1 then -1 else 0)
    else 2 * And(a / 2, b / 2) + (a % 2) * (b % 2)
  }

  function Int32(v: int): int {
    if -HALF <= v < HALF then v else (v + HALF) % WORD - HALF
  }

  function RShift32(number: int, bits: nat): int {
    if number >= 0 then number / Pow2(bits) else (number + WORD) / Pow2(bits)
  }

  function Imul32(x: int, y: int): int { Int32(x * y) }

  // ----- the bit operations mean what they say -----

  lemma {:induction false} XorBits(a: int, b: int, i: nat)
    ensures Bit(Xor(a, b), i) == (Bit(a, i) + Bit(b, i)) % 2
    decreases i
  {
    hide Xor;
    XorUnfolds(a, b);
    if i > 0 { XorBits(a / 2, b / 2, i - 1); }
  }

  lemma {:induction false} XorUnfolds(a: int, b: int)
    ensures Xor(a, b) == 2 * Xor(a / 2, b / 2) + (a % 2 + b % 2) % 2
  {
  }

  lemma {:induction false} SmallMultiple(m: int, d: int)
    requires -m < m * d < m
    ensures d == 0
  {
  }

  lemma {:induction false} ModUnique(x: int, m: int, q: int, r: int)
    requires 0 <= r < m && x == m * q + r
    ensures x % m == r
  {
    var d := x / m - q;
    assert m * d == r - x % m;
    SmallMultiple(m, d);
  }

  /** Halving commutes with reduction modulo a power of two. */
  lemma {:induction false} HalfMod(a: int, p: int)
    requires p > 0
    ensures (a % (2 * p)) / 2 == (a / 2) % p
    ensures (a % (2 * p)) % 2 == a % 2
  {
    var q, r := a / (2 * p), a % (2 * p);
    assert a == p * (2 * q) + r;
    assert a == 2 * (p * q) + r;
    assert a / 2 == p * q + r / 2;
    ModUnique(a / 2, p, q, r / 2);
  }

  lemma {:induction false} DoubleMod(x: int, bit: int, p: int)
    requires p > 0 && 0 <= bit <= 1
    ensures (2 * x + bit) % (2 * p) == 2 * (x % p) + bit
  {
    var q, r := x / p, x % p;
    assert 2 * x + bit == (2 * p) * q + (2 * r + bit);
    ModUnique(2 * x + bit, 2 * p, q, 2 * r + bit);
  }

  lemma {:induction false} XorFits(a: int, b: int, k: nat)
    requires 0 <= a < Pow2(k) && 0 <= b < Pow2(k)
    ensures 0 <= Xor(a, b) < Pow2(k)
    decreases k
  {
    if k > 0 {
      XorUnfolds(a, b);
      XorFits(a / 2, b / 2, k - 1);
    }
  }

  lemma {:induction false} XorFitsSigned(a: int, b: int, k: nat)
    requires -Pow2(k) <= a < Pow2(k) && -Pow2(k) <= b < Pow2(k)
    ensures -Pow2(k) <= Xor(a, b) < Pow2(k)
    decreases k
  {
    if k > 0 {
      XorUnfolds(a, b);
      XorFitsSigned(a / 2, b / 2, k - 1);
    }
  }

  /** Reading the operands as unsigned k-bit words first changes nothing in the low k bits. */
  lemma {:induction false} XorMod(a: int, b: int, k: nat)
    ensures Xor(a, b) % Pow2(k) == Xor(a % Pow2(k), b % Pow2(k))
    decreases k
  {
    hide Xor;
    var p := Pow2(k);
    if k == 0 {
      assert a % 1 == 0 && b % 1 == 0 && Xor(a, b) % 1 == 0;
      XorZero();
    } else {
      var h := Pow2(k - 1);
      HalfMod(a, h);
      HalfMod(b, h);
      XorUnfolds(a, b);
      XorUnfolds(a % p, b % p);
      XorMod(a / 2, b / 2, k - 1);
      DoubleMod(Xor(a / 2, b / 2), (a % 2 + b % 2) % 2, h);
    }
  }

  lemma {:induction false} XorZero()
    ensures Xor(0, 0) == 0
  {
  }

  lemma {:induction false} AndUnfolds(a: int, b: int)
    ensures And(a, b) == 2 * And(a / 2, b / 2) + (a % 2) * (b % 2)
  {
  }

  lemma {:induction false} AndMask(a: int, k: nat)
    ensures And(Pow2(k) - 1, a) == a % Pow2(k)
    decreases k
  {
    AndUnfolds(Pow2(k) - 1, a);
    if k == 0 {
      AndZero(a);
      assert a % 1 == 0;
    } else {
      var h := Pow2(k - 1);
      assert (2 * h - 1) / 2 == h - 1 && (2 * h - 1) % 2 == 1;
      AndMask(a / 2, k - 1);
      assert a == 2 * (a / 2) + a % 2;
      DoubleMod(a / 2, a % 2, h);
    }
  }

  lemma {:induction false} AndZero(a: int)
    ensures And(0, a) == 0
    decreases Magnitude(a)
  {
    if Magnitude(a) > 0 { AndZero(a / 2); }
  }

  // ----- the emulation as seen in unsigned 32-bit words -----

  predicate IsInt32(v: int) { -HALF <= v < HALF }

  lemma {:induction false} PowersOfTwo()
    ensures Pow2(32) == WORD && Pow2(31) == HALF
    ensures Pow2(21) == 2097152 && Pow2(16) == 65536 && Pow2(13) == 8192 && Pow2(0) == 1
  {
    assert Pow2(8) == 256;
    PowAdds(8, 8);
    PowAdds(16, 16);
    PowAdds(16, 15);
    PowAdds(16, 5);
  }

  lemma {:induction false} PowAdds(j: nat, k: nat)
    ensures Pow2(j + k) == Pow2(j) * Pow2(k)
    decreases k
  {
    if k > 0 {
      PowAdds(j, k - 1);
      assert Pow2(j + k) == 2 * Pow2(j + (k - 1));
    }
  }

  lemma {:induction false} Int32Word(v: int)
    ensures IsInt32(Int32(v)) && Int32(v) % WORD == v % WORD
  {
  }

  lemma {:induction false} MulMod(x: int, y: int)
    ensures (x * y) % WORD == (x % WORD * y) % WORD
  {
    var q, r := x / WORD, x % WORD;
    assert x * y == WORD * (q * y) + r * y;
    var s := r * y;
    assert s == WORD * (s / WORD) + s % WORD;
    assert x * y == WORD * (q * y + s / WORD) + s % WORD;
    ModUnique(x * y, WORD, q * y + s / WORD, s % WORD);
  }

  lemma {:induction false} ImulWord(x: int, y: int)
    ensures IsInt32(Imul32(x, y))
    ensures Imul32(x, y) % WORD == (x % WORD * y) % WORD
  {
    Int32Word(x * y);
    MulMod(x, y);
  }

  lemma {:induction false} XorWord(a: int, b: int)
    requires IsInt32(a) && IsInt32(b)
    ensures IsInt32(Xor(a, b))
    ensures Xor(a, b) % WORD == Xor(a % WORD, b % WORD)
    ensures 0 <= Xor(a % WORD, b % WORD) < WORD
  {
    PowersOfTwo();
    XorFitsSigned(a, b, 31);
    XorMod(a, b, 32);
    XorFits(a % WORD, b % WORD, 32);
  }

  lemma {:induction false} DivShift(x: int, p: int, k: int)
    requires 0 < p
    ensures (x + k * p) / p == x / p + k
  {
    var q, r := x / p, x % p;
    assert x + k * p == p * (q + k) + r by { assert p * (q + k) == p * q + k * p; }
    ModUnique(x + k * p, p, q + k, r);
  }

  lemma {:induction false} DivMono(x: int, y: int, p: int)
    requires 0 < p && x <= y
    ensures x / p <= y / p
  {
    var q, s := x / p, y / p;
    if q > s { MulLeft(p, s + 1, q); }
  }

  lemma {:induction false} MulLeft(p: int, x: int, y: int)
    requires 0 <= p && x <= y
    ensures p * x <= p * y
  {
    assert 0 <= p * (y - x);
  }

  /** For every shift count up to 32 the emulated shift is the logical one of the unsigned word exactly
      on the numbers that leave at most one 32-bit word. */
  lemma {:induction false} ShiftWordIff(number: int, bits: nat)
    requires bits <= 32
    ensures RShift32(number, bits) == (number % WORD) / Pow2(bits) <==> -WORD <= number < WORD
  {
    hide Pow2;
    var p, k, u := Pow2(bits), Pow2(32 - bits), number % WORD;
    assert k * p == WORD by { PowersOfTwo(); PowAdds(32 - bits, bits); }
    if number >= WORD {
      DivShift(u, p, k);
      DivMono(u + WORD, number, p);
    } else if number < -WORD {
      DivShift(u - WORD, p, k);
      DivMono(number + WORD, u - WORD, p);
    }
  }

  /** On int32 values a shift by 1 to 32 bits stays in int32. */
  lemma {:induction false} ShiftWord(h: int, bits: nat)
    requires IsInt32(h) && 1 <= bits <= 32
    ensures RShift32(h, bits) == (h % WORD) / Pow2(bits)
    ensures IsInt32(RShift32(h, bits)) && RShift32(h, bits) % WORD == RShift32(h, bits)
  {
    hide Pow2;
    ShiftWordIff(h, bits);
    var p, u := Pow2(bits), h % WORD;
    assert 2 <= p by { PowAtLeast2(bits); }
    DivBy(u, p);
  }

  lemma {:induction false} PowAtLeast2(bits: nat)
    requires 1 <= bits
    ensures 2 <= Pow2(bits)
  {
  }

  lemma {:induction false} DivBy(u: int, p: int)
    requires 0 <= u < WORD && 2 <= p
    ensures 0 <= u / p < HALF
  {
    var q := u / p;
    if q >= HALF {
      MulLeft(p, HALF, q);
      MulLeft(HALF, 2, p);
    }
    if q < 0 {
      MulLeft(p, q, -1);
    }
  }

  // ----- the unsigned 32-bit reference -----

  predicate IsText(text: seq<int>) { forall i | 0 <= i < |text| :: 0 <= text[i] < HALF }

  /** xor with the next code, multiply, keep 32 bits. */
  function Absorb(u: int, code: int, factor: int): int { Xor(u, code) * factor % WORD }

  function AbsorbAll(u: int, text: seq<int>, factor: int): int {
    if text == [] then u
    else Absorb(AbsorbAll(u, text[..|text| - 1], factor), text[|text| - 1], factor)
  }

  /** x ^ (x >>> bits), multiplied, in 32 unsigned bits. */
  function Mix(u: int, bits: nat, factor: int): int { Xor(u, u / Pow2(bits)) * factor % WORD }

  function Finished(u1: int, u2: int): int {
    var w1 := Xor(Mix(u1, 16, 2246822507), Mix(u2, 13, 3266489909));
    var w2 := Xor(Mix(u2, 16, 2246822507), Mix(w1, 13, 3266489909));
    WORD * (w2 % Pow2(21)) + w1
  }

  function Reference(text: seq<int>, seed: int): int {
    Finished(
      AbsorbAll(Xor(0xDEADBEEF, seed % WORD), text, 2654435761),
      AbsorbAll(Xor(0x41C6CE57, seed % WORD), text, 1597334677))
  }

  /** One emulated mixing step refines the unsigned one. */
  lemma {:induction false} MixWord(h: int, bits: nat, factor: int)
    requires IsInt32(h) && 1 <= bits <= 32
    ensures IsInt32(Xor(h, RShift32(h, bits)))
    ensures IsInt32(Imul32(Xor(h, RShift32(h, bits)), factor))
    ensures Imul32(Xor(h, RShift32(h, bits)), factor) % WORD == Mix(h % WORD, bits, factor)
  {
    ShiftWord(h, bits);
    XorWord(h, RShift32(h, bits));
    ImulWord(Xor(h, RShift32(h, bits)), factor);
  }

  lemma {:induction false} AbsorbWord(h: int, code: int, factor: int)
    requires IsInt32(h) && 0 <= code < HALF
    ensures IsInt32(Imul32(Xor(h, code), factor))
    ensures Imul32(Xor(h, code), factor) % WORD == Absorb(h % WORD, code, factor)
  {
    hide Xor, Imul32;
    XorWord(h, code);
    assert code % WORD == code;
    ImulWord(Xor(h, code), factor);
  }

  lemma {:induction false} SeedWord(constant: int, seed: int)
    ensures IsInt32(Xor(Int32(constant), Int32(seed)))
    ensures Xor(Int32(constant), Int32(seed)) % WORD == Xor(constant % WORD, seed % WORD)
  {
    Int32Word(constant);
    Int32Word(seed);
    XorWord(Int32(constant), Int32(seed));
  }

  /** The source's hash: signed, on unbounded integers. */
  method Hash(text: seq<int>, seed: int) returns (digest: int)
    requires IsText(text)
    ensures digest == Reference(text, seed)
    ensures 0 <= digest < Pow2(53)
  {
    hide Xor, Imul32, Int32, Mix, RShift32, Absorb, Finished;
    SeedWord(0xDEADBEEF, seed);
    SeedWord(0x41C6CE57, seed);
    Int32Fixes(0x41C6CE57);
    var h1 := Xor(Int32(0xDEADBEEF), Int32(seed));
    var h2 := Xor(0x41C6CE57, Int32(seed));
    ghost var s1, s2 := Xor(0xDEADBEEF, seed % WORD), Xor(0x41C6CE57, seed % WORD);
    for pos := 0 to |text|
      invariant IsInt32(h1) && IsInt32(h2)
      invariant h1 % WORD == AbsorbAll(s1, text[..pos], 2654435761)
      invariant h2 % WORD == AbsorbAll(s2, text[..pos], 1597334677)
    {
      var code := text[pos];
      AbsorbWord(h1, code, 2654435761);
      AbsorbWord(h2, code, 1597334677);
      assert text[..pos + 1][..pos] == text[..pos];
      h1 := Imul32(Xor(h1, code), 2654435761);
      h2 := Imul32(Xor(h2, code), 1597334677);
    }
    assert text[..|text|] == text;
    digest := Finish(h1, h2);
  }

  lemma {:induction false} Int32Fixes(v: int)
    requires IsInt32(v)
    ensures Int32(v) == v
  {
  }

  method Finish(first: int, second: int) returns (digest: int)
    requires IsInt32(first) && IsInt32(second)
    ensures digest == Finished(first % WORD, second % WORD)
    ensures 0 <= digest < Pow2(53)
  {
    hide Xor, Imul32, Int32, Mix, RShift32;
    var h1, h2 := first, second;
    MixWord(h1, 16, 2246822507);
    MixWord(h2, 13, 3266489909);
    h1 := Imul32(Xor(h1, RShift32(h1, 16)), 2246822507);
    XorWord(h1, Imul32(Xor(h2, RShift32(h2, 13)), 3266489909));
    h1 := Xor(h1, Imul32(Xor(h2, RShift32(h2, 13)), 3266489909));
    MixWord(h2, 16, 2246822507);
    MixWord(h1, 13, 3266489909);
    h2 := Imul32(Xor(h2, RShift32(h2, 16)), 2246822507);
    XorWord(h2, Imul32(Xor(h1, RShift32(h1, 13)), 3266489909));
    h2 := Xor(h2, Imul32(Xor(h1, RShift32(h1, 13)), 3266489909));
    ResultWord(h1, h2);
    digest := WORD * And(2097151, h2) + RShift32(h1, 0);
  }

  lemma {:induction false} ResultWord(h1: int, h2: int)
    requires IsInt32(h1) && IsInt32(h2)
    ensures RShift32(h1, 0) == h1 % WORD
    ensures And(2097151, h2) == h2 % Pow2(21) == (h2 % WORD) % Pow2(21)
    ensures 0 <= WORD * And(2097151, h2) + RShift32(h1, 0) < Pow2(53)
  {
    hide And, Pow2;
    PowersOfTwo();
    AndMask(h2, 21);
    PowAdds(21, 32);
    LowBitsOfWord(h2);
    ShiftByNone(h1);
  }

  lemma {:induction false} LowBitsOfWord(h: int)
    ensures (h % WORD) % 2097152 == h % 2097152
  {
    assert WORD == 2097152 * 2048;
    assert h == 2097152 * (2048 * (h / WORD)) + h % WORD;
  }

  lemma {:induction false} ShiftByNone(h: int)
    requires IsInt32(h)
    ensures RShift32(h, 0) == h % WORD
  {
    assert Pow2(0) == 1;
  }
}
