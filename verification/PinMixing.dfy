/** The mixing of 64-bit words under the PINs.  A word is a number below 2^64:
    sums and products are taken modulo 2^64, a shift is a product or a quotient
    with a power of two, and `^` and `|` go bit by bit. */
module PinMixing {

  const WORD_SIZE := 0x1_0000_0000_0000_0000

  type Word = x: int | 0 <= x < WORD_SIZE

  function Pow2(n: nat): (p: nat)
    ensures p > 0
  {
    if n == 0 then 1 else 2 * Pow2(n - 1)
  }

  function Xor(a: nat, b: nat): nat {
    if a == 0 && b == 0 then 0 else 2 * Xor(a / 2, b / 2) + (a % 2 + b % 2) % 2
  }

  function Or(a: nat, b: nat): nat {
    if a == 0 && b == 0 then 0 else 2 * Or(a / 2, b / 2) + if a % 2 + b % 2 > 0 then 1 else 0
  }

  // ---- Bits ----

  lemma {:induction false} Pow2Add(a: nat, b: nat)
    ensures Pow2(a + b) == Pow2(a) * Pow2(b)
    decreases a
  {
    if a > 0 {
      Pow2Add(a - 1, b);
      assert Pow2(a + b) == 2 * Pow2(a - 1 + b);
      assert 2 * (Pow2(a - 1) * Pow2(b)) == (2 * Pow2(a - 1)) * Pow2(b);
    }
  }

  lemma {:induction false} XorZero(a: nat)
    ensures Xor(a, 0) == a && Xor(0, a) == a
  {
    if a > 0 { XorZero(a / 2); }
  }

  /** Doing it twice undoes it. */
  lemma {:induction false} XorCancels(a: nat, b: nat)
    ensures Xor(Xor(a, b), b) == a
    decreases a + b
  {
    hide Xor;
    XorHalves(a, b);
    Halves(Xor(a / 2, b / 2), (a % 2 + b % 2) % 2);
    XorHalves(Xor(a, b), b);
    if a > 0 || b > 0 {
      XorCancels(a / 2, b / 2);
    }
  }

  lemma {:induction false} XorCommutes(a: nat, b: nat)
    ensures Xor(a, b) == Xor(b, a)
    decreases a + b
  {
    if a > 0 || b > 0 { XorCommutes(a / 2, b / 2); }
  }

  lemma {:induction false} XorBound(a: nat, b: nat, k: nat)
    requires a < Pow2(k) && b < Pow2(k)
    ensures Xor(a, b) < Pow2(k)
    decreases k
  {
    if k > 0 { XorBound(a / 2, b / 2, k - 1); }
  }

  /** Bits from `k` up are untouched by a number below 2^k. */
  lemma {:induction false} XorLow(h: nat, l: nat, m: nat, k: nat)
    requires l < Pow2(k) && m < Pow2(k)
    ensures Xor(h * Pow2(k) + l, m) == h * Pow2(k) + Xor(l, m)
    decreases k
  {
    if k == 0 {
      XorZero(h);
      XorZero(0);
    } else {
      XorLow(h, l / 2, m / 2, k - 1);
      DoubleMul(h, Pow2(k - 1));
      XorDoubled(h * Pow2(k - 1), l, m);
    }
  }

  lemma DoubleMul(h: nat, p: nat)
    ensures h * (2 * p) == 2 * (h * p) && h * p >= 0
  {}

  lemma XorDoubled(high: nat, l: nat, m: nat)
    requires Xor(high + l / 2, m / 2) == high + Xor(l / 2, m / 2)
    ensures Xor(2 * high + l, m) == 2 * high + Xor(l, m)
  {
    hide Xor;
    Halves(high + l / 2, l % 2);
    XorHalves(2 * high + l, m);
    XorHalves(l, m);
  }

  lemma Halves(x: nat, bit: nat)
    requires bit < 2
    ensures (2 * x + bit) / 2 == x && (2 * x + bit) % 2 == bit
  {}

  lemma XorHalves(a: nat, b: nat)
    ensures Xor(a, b) == 2 * Xor(a / 2, b / 2) + (a % 2 + b % 2) % 2
  {}

  /** Numbers without a common bit: `|` is their sum. */
  lemma {:induction false} OrApart(h: nat, m: nat, k: nat)
    requires m < Pow2(k)
    ensures Or(h * Pow2(k), m) == h * Pow2(k) + m
    decreases k
  {
    if k == 0 {
      OrZero(h);
    } else {
      var high := h * Pow2(k - 1);
      assert h * Pow2(k) == 2 * high;
      OrApart(h, m / 2, k - 1);
    }
  }

  lemma {:induction false} OrZero(a: nat)
    ensures Or(a, 0) == a
  {
    if a > 0 { OrZero(a / 2); }
  }

  /** The bit of `x` in place `k`. */
  function Bit(x: nat, k: nat): nat {
    x / Pow2(k) % 2
  }

  lemma BitOfHalf(x: nat, k: nat)
    requires k > 0
    ensures Bit(x, k) == Bit(x / 2, k - 1)
  {
    DivideTwice(x, Pow2(k - 1));
  }

  lemma DivideTwice(x: nat, d: nat)
    requires d > 0
    ensures x / (2 * d) == x / 2 / d
  {
    var q, r := x / 2 / d, (x / 2) % d;
    assert x / 2 == q * d + r;
    assert x == q * (2 * d) + (2 * r + x % 2);
    DivideParts(q, 2 * r + x % 2, 2 * d);
  }

  /** `^` goes bit by bit: a bit is set iff it is set in exactly one of the two. */
  lemma {:induction false} XorBits(a: nat, b: nat, k: nat)
    ensures Bit(Xor(a, b), k) == if Bit(a, k) != Bit(b, k) then 1 else 0
    decreases k
  {
    hide Xor;
    XorHalves(a, b);
    Halves(Xor(a / 2, b / 2), (a % 2 + b % 2) % 2);
    if k > 0 {
      BitOfHalf(a, k);
      BitOfHalf(b, k);
      BitOfHalf(Xor(a, b), k);
      XorBits(a / 2, b / 2, k - 1);
    } else {
      assert Pow2(0) == 1;
    }
  }

  // ---- Rotation ----

  lemma WordIs64Bits()
    ensures Pow2(64) == WORD_SIZE
  {
    assert Pow2(8) == 256;
    hide Pow2;
    Pow2Add(8, 8);
    Pow2Add(16, 16);
    Pow2Add(32, 32);
  }

  lemma MulMonotone(a: int, b: int, c: int)
    requires a <= b && c >= 0
    ensures a * c <= b * c
  {}

  /** `h * 2^k + l` with a small `l` stays below 2^(j + k). */
  lemma PartsFit(h: nat, l: nat, j: nat, k: nat)
    requires h < Pow2(j) && l < Pow2(k)
    ensures h * Pow2(k) + l < Pow2(j + k)
  {
    Pow2Add(j, k);
    MulMonotone(h + 1, Pow2(j), Pow2(k));
  }

  lemma DivideParts(h: nat, l: nat, d: nat)
    requires l < d
    ensures (h * d + l) / d == h && (h * d + l) % d == l
  {
    var q, r := (h * d + l) / d, (h * d + l) % d;
    assert d * q + r == h * d + l;
    if q < h { MulMonotone(q + 1, h, d); }
    if q > h { MulMonotone(h + 1, q, d); }
  }

  /** `x << r` in a word. */
  function Shl(x: Word, r: nat): Word {
    (x * Pow2(r)) % WORD_SIZE
  }

  /** `x >> r`. */
  function Shr(x: Word, r: nat): Word {
    QuotientFits(x, Pow2(r));
    x / Pow2(r)
  }

  lemma QuotientFits(x: Word, d: nat)
    requires d > 0
    ensures 0 <= x / d <= x
  {}

  /** What is shifted left by `r` and cut to a word. */
  lemma ShlOfParts(h: nat, l: nat, r: nat, x: Word)
    requires r <= 64 && l < Pow2(64 - r) && x == h * Pow2(64 - r) + l
    ensures Shl(x, r) == l * Pow2(r)
  {
    WordIs64Bits();
    Pow2Add(64 - r, r);
    hide Pow2;
    Distribute(h, Pow2(64 - r), l, Pow2(r));
    PartsFit(l, 0, 64 - r, r);
    DivideParts(h, l * Pow2(r), WORD_SIZE);
  }

  lemma Distribute(h: int, p: int, l: int, q: int)
    ensures (h * p + l) * q == h * (p * q) + l * q
  {}

  /** `rotl`; rotating by 0 or 64 has no meaning in the source. */
  function Rotl(x: Word, r: nat): (y: Word)
    requires 0 < r < 64
  {
    Parts(x, 64 - r);
    RotlOfParts(Shr(x, 64 - r), x % Pow2(64 - r), r, x);
    Or(Shl(x, r), Shr(x, 64 - r))
  }

  lemma Parts(x: Word, k: nat)
    ensures x == Shr(x, k) * Pow2(k) + x % Pow2(k) && 0 <= x % Pow2(k) < Pow2(k)
  {}

  lemma HighPartFits(h: nat, l: nat, k: nat, x: Word)
    requires k <= 64 && x == h * Pow2(k) + l
    ensures h < Pow2(64 - k)
  {
    WordIs64Bits();
    Pow2Add(64 - k, k);
    if h >= Pow2(64 - k) { MulMonotone(Pow2(64 - k), h, Pow2(k)); }
  }

  /** The upper `r` bits come down and the others go up. */
  lemma RotlOfParts(h: nat, l: nat, r: nat, x: Word)
    requires 0 < r < 64 && l < Pow2(64 - r) && x == h * Pow2(64 - r) + l
    ensures h < Pow2(r)
    ensures Or(Shl(x, r), Shr(x, 64 - r)) == l * Pow2(r) + h < WORD_SIZE
  {
    HighPartFits(h, l, 64 - r, x);
    ShlOfParts(h, l, r, x);
    DivideParts(h, l, Pow2(64 - r));
    OrApart(l, h, r);
    PartsFit(l, h, 64 - r, r);
    WordIs64Bits();
  }

  /** Rotation takes the upper `r` bits to the bottom. */
  lemma RotlIs(x: Word, r: nat)
    requires 0 < r < 64
    ensures Rotl(x, r) == (x % Pow2(64 - r)) * Pow2(r) + x / Pow2(64 - r)
  {
    Parts(x, 64 - r);
    RotlOfParts(Shr(x, 64 - r), x % Pow2(64 - r), r, x);
  }

  /** Rotating on by the rest of the word brings it back. */
  lemma RotlInverse(x: Word, r: nat)
    requires 0 < r < 64
    ensures Rotl(Rotl(x, r), 64 - r) == x
  {
    var h, l := Shr(x, 64 - r), x % Pow2(64 - r);
    Parts(x, 64 - r);
    RotlOfParts(h, l, r, x);
    RotlOfParts(l, h, 64 - r, Rotl(x, r));
  }

  // ---- Avalanche ----

  const SHIFT := 33

  /** `x ^ (x >> 33)`. */
  function Shifted(x: Word): Word {
    WordIs64Bits();
    XorBound(x, Shr(x, SHIFT), 64);
    Xor(x, Shr(x, SHIFT))
  }

  /** The upper 31 bits stay and are mixed into the lower 33. */
  lemma ShiftedIs(x: Word, h: nat, l: nat)
    requires x == h * Pow2(33) + l && l < Pow2(33)
    ensures Shifted(x) == h * Pow2(33) + Xor(l, h)
  {
    HighPartFits(h, l, SHIFT, x);
    assert Pow2(33) == 4 * Pow2(31);
    hide Pow2;
    DivideParts(h, l, Pow2(SHIFT));
    XorLow(h, l, h, SHIFT);
  }

  /** The upper 31 bits stay, so the same shift undoes it. */
  lemma ShiftedInverse(x: Word)
    ensures Shifted(Shifted(x)) == x
  {
    var h, l := Shr(x, SHIFT), x % Pow2(SHIFT);
    Parts(x, SHIFT);
    HighPartFits(h, l, SHIFT, x);
    assert Pow2(33) == 4 * Pow2(31);
    XorLow(h, l, h, SHIFT);
    XorBound(l, h, SHIFT);
    DivideParts(h, Xor(l, h), Pow2(SHIFT));
    XorCancels(x, h);
  }

  function Times(x: Word, c: Word): Word {
    (x * c) % WORD_SIZE
  }

  lemma TimesInverse(x: Word, c: Word, d: Word)
    requires (c * d) % WORD_SIZE == 1
    ensures Times(Times(x, c), d) == x
  {
    var q, k := (x * c) / WORD_SIZE, (c * d) / WORD_SIZE;
    assert x * c == q * WORD_SIZE + Times(x, c);
    assert c * d == k * WORD_SIZE + 1;
    assert Times(x, c) * d == (x * c) * d - q * WORD_SIZE * d;
    assert (x * c) * d == x * (c * d) == x * k * WORD_SIZE + x;
    assert Times(x, c) * d == (x * k - q * d) * WORD_SIZE + x;
    Residue(x * k - q * d, x);
  }

  lemma Residue(k: int, x: Word)
    ensures (k * WORD_SIZE + x) % WORD_SIZE == x
  {}

  const MULTIPLIER1: Word := 0xff51afd7ed558ccd
  const MULTIPLIER2: Word := 0xc4ceb9fe1a85ec53
  const INVERSE1: Word := 0x4f74430c22a54005
  const INVERSE2: Word := 0x9cb4b2f8129337db

  function Avalanche(x: Word): Word {
    Shifted(Times(Shifted(Times(Shifted(x), MULTIPLIER1)), MULTIPLIER2))
  }

  function Unavalanche(y: Word): Word {
    Shifted(Times(Shifted(Times(Shifted(y), INVERSE2)), INVERSE1))
  }

  /** `avalanche` is a bijection on words: this is its inverse, on both sides. */
  lemma AvalancheInverse(x: Word)
    ensures Unavalanche(Avalanche(x)) == x
    ensures Avalanche(Unavalanche(x)) == x
  {
    ThereAndBack(x, MULTIPLIER1, MULTIPLIER2, INVERSE1, INVERSE2);
    ThereAndBack(x, INVERSE2, INVERSE1, MULTIPLIER2, MULTIPLIER1);
  }

  /** Between its first and last shift `avalanche` multiplies by the one constant
      and then by the other: what the inverse of the first takes below 2^33
      comes out multiplied by the second. */
  lemma AvalancheBetween(s: Word)
    requires s < Pow2(33)
    ensures Avalanche(Shifted((s * 0x4f74430c22a54005) % WORD_SIZE)) == Shifted((s * 0xc4ceb9fe1a85ec53) % WORD_SIZE)
  {
    hide Shifted, Avalanche, Pow2;
    Between(s);
  }

  lemma Between(s: Word)
    requires s < Pow2(33)
    ensures Avalanche(Shifted(Times(s, INVERSE1))) == Shifted(Times(s, MULTIPLIER2))
  {
    hide Shifted, Times, Pow2;
    ShiftedInverse(Times(s, INVERSE1));
    InverseFirst(s);
    SmallIsNotShifted(s);
  }

  lemma InverseFirst(s: Word)
    ensures Times(Times(s, INVERSE1), MULTIPLIER1) == s
  {
    TimesInverse(s, INVERSE1, MULTIPLIER1);
  }

  lemma SmallIsNotShifted(s: Word)
    requires s < Pow2(33)
    ensures Shifted(s) == s
  {
    DivideParts(0, s, Pow2(SHIFT));
    XorZero(s);
  }

  lemma ThereAndBack(x: Word, c: Word, d: Word, c': Word, d': Word)
    requires (c * c') % WORD_SIZE == 1 && (d * d') % WORD_SIZE == 1
    ensures var y := Shifted(Times(Shifted(Times(Shifted(x), c)), d));
      Shifted(Times(Shifted(Times(Shifted(y), d')), c')) == x
  {
    var a := Times(Shifted(x), c);
    var b := Times(Shifted(a), d);
    ShiftedInverse(b);
    TimesInverse(Shifted(a), d, d');
    ShiftedInverse(a);
    TimesInverse(Shifted(x), c, c');
    ShiftedInverse(x);
  }
}
