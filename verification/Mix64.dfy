/** The 64-bit finalizer the consistent-hash ring applies to every key hash. */
module Mix64 {

  // uint64 arithmetic, with the wrap-around of multiplication written out.
  const WORD_SIZE: int := 0x1_0000_0000_0000_0000

  // 2^33: x >> 33 is a division by it.
  const SHIFT_33: int := 0x2_0000_0000

  type Word = x: int | 0 <= x < 0x1_0000_0000_0000_0000

  const MULTIPLIER_1: Word := 0xff51afd7ed558ccd
  const MULTIPLIER_2: Word := 0xc4ceb9fe1a85ec53

  // The inverses of the two odd multipliers modulo 2^64.
  const INVERSE_1: Word := 0x4f74430c22a54005
  const INVERSE_2: Word := 0x9cb4b2f8129337db

  /** Bitwise exclusive or, bit by bit from the least significant end. */
  function Xor(a: nat, b: nat): nat {
    if a == 0 && b == 0 then 0 else 2 * Xor(a / 2, b / 2) + (a % 2 + b % 2) % 2
  }

  function Pow2(k: nat): nat {
    if k == 0 then 1 else 2 * Pow2(k - 1)
  }

  lemma HalfAndBit(h: nat, bit: nat)
    requires bit < 2
    ensures (2 * h + bit) / 2 == h && (2 * h + bit) % 2 == bit
  {
  }

  lemma {:induction false} XorBit(a: nat, b: nat)
    ensures Xor(a, b) / 2 == Xor(a / 2, b / 2)
    ensures Xor(a, b) % 2 == (if a % 2 == b % 2 then 0 else 1)
  {
    var h, bit := Xor(a / 2, b / 2), if a % 2 == b % 2 then 0 else 1;
    assert Xor(a, b) == 2 * h + bit;
    HalfAndBit(h, bit);
  }

  lemma {:induction false} XorSelfInverse(a: nat, b: nat)
    ensures Xor(Xor(a, b), b) == a
  {
    if a != 0 || b != 0 {
      XorSelfInverse(a / 2, b / 2);
      XorBit(a, b);
      XorBit(Xor(a, b), b);
    }
  }

  lemma {:induction false} XorZero(a: nat)
    ensures Xor(a, 0) == a
  {
    if a != 0 {
      XorZero(a / 2);
    }
  }

  /** A right shift by k bits. */
  function Shr(a: nat, k: nat): (r: nat)
    ensures r <= a
  {
    if k == 0 then a else Shr(a / 2, k - 1)
  }

  /** A right shift distributes over exclusive or. */
  lemma {:induction false} XorShr(a: nat, b: nat, k: nat)
    ensures Shr(Xor(a, b), k) == Xor(Shr(a, k), Shr(b, k))
  {
    if k > 0 {
      XorBit(a, b);
      XorShr(a / 2, b / 2, k - 1);
    }
  }

  lemma {:induction false} ShrShr(a: nat, j: nat, k: nat)
    ensures Shr(Shr(a, j), k) == Shr(a, j + k)
  {
    if j > 0 {
      ShrShr(a / 2, j - 1, k);
    }
  }

  /** Shifting a word by its width or more leaves nothing. */
  lemma {:induction false} ShrAll(a: nat, k: nat)
    requires a < Pow2(k)
    ensures Shr(a, k) == 0
  {
    if k > 0 {
      ShrAll(a / 2, k - 1);
    }
  }

  /** Shifting right is dividing by a power of two. */
  lemma {:induction false} ShrDivides(a: nat, k: nat)
    ensures Pow2(k) * Shr(a, k) <= a < Pow2(k) * (Shr(a, k) + 1)
  {
    if k > 0 {
      ShrDivides(a / 2, k - 1);
      TwiceTimes(Pow2(k - 1), Shr(a, k));
      TwiceTimes(Pow2(k - 1), Shr(a, k) + 1);
    }
  }

  lemma TwiceTimes(p: nat, s: nat)
    ensures 2 * p * s == 2 * (p * s)
  {
  }

  lemma {:induction false} Pow2Positive(k: nat)
    ensures Pow2(k) > 0
  {
    if k > 0 {
      Pow2Positive(k - 1);
    }
  }

  lemma ShiftIsDivision(x: Word)
    ensures Shr(x, 33) == x / SHIFT_33
  {
    Pow2Width();
    ShrDivides(x, 33);
    QuotientUnique(x, SHIFT_33, Shr(x, 33), x - SHIFT_33 * Shr(x, 33));
  }

  lemma QuotientUnique(a: nat, p: nat, q: int, r: int)
    requires p > 0 && a == p * q + r && 0 <= r < p
    ensures a / p == q
  {
    var d := a / p - q;
    var r' := a % p;
    assert p * d == r - r' by {
      assert a == p * (a / p) + r';
      assert p * d == p * (a / p) - p * q;
    }
    if d > 0 {
      MulAtLeast(p, d);
    } else if d < 0 {
      MulAtLeast(p, -d);
    }
  }

  lemma MulAtLeast(p: nat, d: int)
    requires d > 0
    ensures p * d >= p
  {
  }

  /** An xor keeps a word within its width. */
  lemma {:induction false} XorWidth(a: nat, b: nat, k: nat)
    requires a < Pow2(k) && b < Pow2(k)
    ensures Xor(a, b) < Pow2(k)
  {
    if k > 0 && (a != 0 || b != 0) {
      XorWidth(a / 2, b / 2, k - 1);
    }
    Pow2Positive(k);
  }

  lemma Pow2Width()
    ensures Pow2(33) == SHIFT_33 && Pow2(64) == WORD_SIZE && Pow2(66) == 4 * WORD_SIZE
  {
    assert Pow2(8) == 256;
    Pow2Add(8, 8);
    assert Pow2(16) == 0x1_0000;
    Pow2Add(16, 16);
    assert Pow2(32) == 0x1_0000_0000;
    Pow2Add(32, 32);
  }

  lemma {:induction false} Pow2Add(a: nat, b: nat)
    ensures Pow2(a + b) == Pow2(a) * Pow2(b)
  {
    if a > 0 {
      Pow2Add(a - 1, b);
    }
  }

  /** x ^= x >> 33 */
  function XorShift(x: Word): (r: Word)
  {
    Pow2Width();
    XorWidth(x, Shr(x, 33), 64);
    Xor(x, Shr(x, 33))
  }

  /** x *= m, wrapping at 64 bits. */
  function Times(x: Word, m: Word): Word {
    x * m % WORD_SIZE
  }

  function Mix(x: Word): Word {
    XorShift(Times(XorShift(Times(XorShift(x), MULTIPLIER_1)), MULTIPLIER_2))
  }

  function Unmix(y: Word): Word {
    XorShift(Times(XorShift(Times(XorShift(y), INVERSE_2)), INVERSE_1))
  }

  /** x ^= x >> 33, the shift as the division it is. */
  method ShiftAndXor(x: Word) returns (r: Word)
    ensures r == XorShift(x)
  {
    ShiftIsDivision(x);
    Pow2Width();
    XorWidth(x, Shr(x, 33), 64);
    r := Xor(x, x / SHIFT_33);
  }

  /** The step-by-step form of the source. */
  method Mix64(x0: Word) returns (x: Word)
    ensures x == Mix(x0)
    ensures Unmix(x) == x0
  {
    x := ShiftAndXor(x0);
    x := Times(x, MULTIPLIER_1);
    x := ShiftAndXor(x);
    x := Times(x, MULTIPLIER_2);
    x := ShiftAndXor(x);
    MixBijective(x0, x);
  }

  lemma XorShiftInvolution(x: Word)
    ensures XorShift(XorShift(x)) == x
  {
    var s := Shr(x, 33);
    XorShr(x, s, 33);
    Pow2Width();
    ShrShr(x, 33, 33);
    ShrAll(x, 66);
    XorZero(s);
    XorSelfInverse(x, s);
  }

  /** Multiplying by a unit modulo 2^64 and then by its inverse gives the word back. */
  lemma TimesInverse(x: Word, m: Word, inv: Word, k: int)
    requires m * inv == 1 + k * WORD_SIZE
    ensures Times(Times(x, m), inv) == x
  {
    var q := x * m / WORD_SIZE;
    calc {
      Times(x, m) * inv;
      (x * m - q * WORD_SIZE) * inv;
      x * m * inv - q * WORD_SIZE * inv;
      { assert x * m * inv == x * (m * inv); }
      x * (1 + k * WORD_SIZE) - q * WORD_SIZE * inv;
      x + (x * k - q * inv) * WORD_SIZE;
    }
    var w := Times(x, m) * inv;
    QuotientUnique(w, WORD_SIZE, x * k - q * inv, x);
  }

  lemma MultipliersInvertible(x: Word)
    ensures Times(Times(x, MULTIPLIER_1), INVERSE_1) == x
    ensures Times(Times(x, INVERSE_1), MULTIPLIER_1) == x
    ensures Times(Times(x, MULTIPLIER_2), INVERSE_2) == x
    ensures Times(Times(x, INVERSE_2), MULTIPLIER_2) == x
  {
    TimesInverse(x, MULTIPLIER_1, INVERSE_1, K_1);
    TimesInverse(x, INVERSE_1, MULTIPLIER_1, K_1);
    TimesInverse(x, MULTIPLIER_2, INVERSE_2, K_2);
    TimesInverse(x, INVERSE_2, MULTIPLIER_2, K_2);
  }

  const K_1: int := (MULTIPLIER_1 * INVERSE_1 - 1) / WORD_SIZE
  const K_2: int := (MULTIPLIER_2 * INVERSE_2 - 1) / WORD_SIZE

  /** The finalizer is a bijection on 64-bit words: Unmix is its two-sided inverse. */
  lemma MixBijective(x: Word, y: Word)
    ensures Unmix(Mix(x)) == x
    ensures Mix(Unmix(y)) == y
  {
    var a := Times(XorShift(x), MULTIPLIER_1);
    var b := Times(XorShift(a), MULTIPLIER_2);
    XorShiftInvolution(b);
    MultipliersInvertible(XorShift(a));
    XorShiftInvolution(a);
    MultipliersInvertible(XorShift(x));
    XorShiftInvolution(x);
    var c := Times(XorShift(y), INVERSE_2);
    var d := Times(XorShift(c), INVERSE_1);
    XorShiftInvolution(d);
    MultipliersInvertible(XorShift(c));
    XorShiftInvolution(c);
    MultipliersInvertible(XorShift(y));
    XorShiftInvolution(y);
  }
}
