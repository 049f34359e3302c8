/** Go's `uint64` and the operators the generator applies to it, written out on
    integers: arithmetic wraps modulo 2^64, a left shift drops the bits pushed past
    bit 63, and `|`, `&` act bit by bit. */
module Uint64 {

  const Modulus: int := 0x1_0000_0000_0000_0000

  type Word = x: int | 0 <= x < Modulus

  function Pow2(n: nat): (r: nat)
    ensures r >= 1
  {
    if n == 0 then 1 else 2 * Pow2(n - 1)
  }

  /** Go's `x + y`. */
  function Add(x: Word, y: Word): Word {
    (x + y) % Modulus
  }

  /** Go's `x - y`: a smaller minuend wraps around. */
  function Sub(x: Word, y: Word): Word {
    (x - y) % Modulus
  }

  /** Go's `x << n` for a count n >= 0: the bits shifted past bit 63 are lost, so a
      count of 64 or more gives 0. */
  function Shl(x: Word, n: nat): Word {
    (x * Pow2(n)) % Modulus
  }

  /** Go's `x >> n`. */
  function Shr(x: Word, n: nat): Word {
    DivBelow(x, Pow2(n));
    x / Pow2(n)
  }

  /** Bitwise or of two naturals, one bit at a time from the bottom. */
  function BitOr(a: nat, b: nat): nat
    decreases a + b
  {
    if a == 0 then b
    else if b == 0 then a
    else 2 * BitOr(a / 2, b / 2) + (if a % 2 == 1 || b % 2 == 1 then 1 else 0)
  }

  /** Bitwise and of two naturals, one bit at a time from the bottom. */
  function BitAnd(a: nat, b: nat): nat
    decreases a + b
  {
    if a == 0 || b == 0 then 0
    else 2 * BitAnd(a / 2, b / 2) + (if a % 2 == 1 && b % 2 == 1 then 1 else 0)
  }

  /** Go's `x | y`. */
  function Or(x: Word, y: Word): Word {
    Pow2Values();
    BitOrBelow(x, y, 64);
    BitOr(x, y)
  }

  /** Go's `x & y`. */
  function And(x: Word, y: Word): Word {
    BitAndBelow(x, y);
    BitAnd(x, y)
  }

  // ---------------------------------------------------------------------------
  // Arithmetic facts

  lemma DivBelow(x: nat, d: nat)
    requires d >= 1
    ensures 0 <= x / d <= x
  {
    var q, r := x / d, x % d;
    assert x == d * q + r;
    if q > 0 {
      MulPositive(d, q);
    }
  }

  lemma {:induction false} Pow2Monotone(a: nat, b: nat)
    requires a <= b
    ensures Pow2(a) <= Pow2(b)
    decreases b - a
  {
    if a < b {
      Pow2Monotone(a, b - 1);
    }
  }

  lemma {:induction false} Pow2Add(a: nat, b: nat)
    ensures Pow2(a + b) == Pow2(a) * Pow2(b)
    decreases b
  {
    if b > 0 {
      Pow2Add(a, b - 1);
      calc {
        Pow2(a + b);
        2 * Pow2(a + b - 1);
        2 * (Pow2(a) * Pow2(b - 1));
        Pow2(a) * (2 * Pow2(b - 1));
      }
    }
  }

  lemma Pow2Values()
    ensures Pow2(1) == 2 && Pow2(2) == 4 && Pow2(3) == 8 && Pow2(4) == 16 && Pow2(5) == 32
    ensures Pow2(10) == 1024 && Pow2(12) == 4096 && Pow2(15) == 32768 && Pow2(17) == 131072
    ensures Pow2(20) == 1048576 && Pow2(21) == 2097152 && Pow2(22) == 4194304
    ensures Pow2(27) == 134217728 && Pow2(37) == 137438953472 && Pow2(42) == 4398046511104
    ensures Pow2(64) == Modulus
  {
    assert Pow2(2) == 4;
    Pow2Add(2, 1);
    Pow2Add(2, 2);
    Pow2Add(4, 1);
    Pow2Add(5, 5);
    Pow2Add(10, 2);
    Pow2Add(10, 5);
    Pow2Add(12, 3);
    Pow2Add(12, 5);
    Pow2Add(10, 10);
    Pow2Add(20, 1);
    Pow2Add(20, 2);
    Pow2Add(22, 5);
    Pow2Add(27, 10);
    Pow2Add(37, 5);
    Pow2Add(42, 22);
  }

  /** 2^64 is the modulus of the word arithmetic. */
  lemma Pow2Full()
    ensures Pow2(64) == Modulus
  {
    Pow2Values();
  }

  lemma MulPositive(k: int, m: int)
    requires k >= 1 && m > 0
    ensures k * m >= m
  {
    assert k * m == (k - 1) * m + m;
    assert (k - 1) * m >= 0;
  }

  /** a == q * m + r with 0 <= r < m determines quotient and remainder. */
  lemma DivModUnique(a: int, m: int, q: int, r: int)
    requires m > 0 && 0 <= r < m && a == q * m + r
    ensures a / m == q && a % m == r
  {
    var q', r' := a / m, a % m;
    assert a == q' * m + r';
    assert (q' - q) * m == r - r' by {
      assert q' * m - q * m == (q' - q) * m;
    }
    if q' > q {
      MulPositive(q' - q, m);
    } else if q' < q {
      MulPositive(q - q', m);
    }
  }

  /** Shifting a value that fits leaves it unwrapped. */
  lemma ShlNoWrap(x: Word, n: nat)
    requires x * Pow2(n) < Modulus
    ensures Shl(x, n) == x * Pow2(n)
  {
    DivModUnique(x * Pow2(n), Modulus, 0, x * Pow2(n));
  }

  /** Shifting zero gives zero. */
  lemma ShlZero(n: nat)
    ensures Shl(0, n) == 0
  {
  }

  /** A count of 64 or more shifts every bit out. */
  lemma ShlBeyond(x: Word, n: nat)
    requires n >= 64
    ensures Shl(x, n) == 0
  {
    Pow2Values();
    Pow2Add(64, n - 64);
    assert x * Pow2(n) == (x * Pow2(n - 64)) * Modulus;
    DivModUnique(x * Pow2(n), Modulus, x * Pow2(n - 64), 0);
  }

  // ---------------------------------------------------------------------------
  // Bitwise facts

  /** Or keeps values below a power of two below it. */
  lemma {:induction false} BitOrBelow(a: nat, b: nat, k: nat)
    requires a < Pow2(k) && b < Pow2(k)
    ensures BitOr(a, b) < Pow2(k)
    decreases a + b
  {
    if a != 0 && b != 0 {
      assert k > 0;
      BitOrBelow(a / 2, b / 2, k - 1);
    }
  }

  lemma {:induction false} BitAndBelow(a: nat, b: nat)
    ensures BitAnd(a, b) <= a
    decreases a + b
  {
    if a != 0 && b != 0 {
      BitAndBelow(a / 2, b / 2);
    }
  }

  /** A multiple of 2^k or-ed with a value below 2^k is their sum: the two have no
      bit in common. */
  lemma {:induction false} BitOrDisjoint(a: nat, b: nat, k: nat)
    requires a % Pow2(k) == 0 && b < Pow2(k)
    ensures BitOr(a, b) == a + b
    decreases k
  {
    if a != 0 && b != 0 {
      assert k > 0;
      var h := Pow2(k - 1);
      assert Pow2(k) == 2 * h;
      var q := a / Pow2(k);
      DivModUnique(a, Pow2(k), q, 0);
      assert a == 2 * (q * h);
      DivModUnique(a, 2, q * h, 0);
      DivModUnique(a / 2, h, q, 0);
      BitOrDisjoint(a / 2, b / 2, k - 1);
    }
  }

  /** The remainder by 2h from the remainder of the halved value by h. */
  lemma ModDouble(a: nat, h: nat)
    requires h >= 1
    ensures a % (2 * h) == 2 * ((a / 2) % h) + a % 2
  {
    var q, r := (a / 2) / h, (a / 2) % h;
    assert a / 2 == q * h + r;
    assert a == q * (2 * h) + (2 * r + a % 2) by {
      assert a == 2 * (a / 2) + a % 2;
      assert 2 * (q * h) == q * (2 * h);
    }
    DivModUnique(a, 2 * h, q, 2 * r + a % 2);
  }

  /** And with 2^k - 1 keeps the k lowest bits. */
  lemma {:induction false} BitAndLowMask(a: nat, k: nat)
    ensures BitAnd(a, Pow2(k) - 1) == a % Pow2(k)
    decreases k
  {
    if k == 0 {
      assert Pow2(k) == 1;
    } else if a == 0 {
      assert BitAnd(a, Pow2(k) - 1) == 0;
    } else {
      var h, m := Pow2(k - 1), Pow2(k) - 1;
      assert Pow2(k) == 2 * h;
      BitAndLowMask(a / 2, k - 1);
      MaskStep(a, h, m);
    }
  }

  /** One step of the mask: the lowest bit of `a` and the low bits of `a / 2`. */
  lemma MaskStep(a: nat, h: nat, m: nat)
    requires a != 0 && h >= 1 && m == 2 * h - 1
    requires BitAnd(a / 2, h - 1) == (a / 2) % h
    ensures BitAnd(a, m) == a % (2 * h)
  {
    DivModUnique(m, 2, h - 1, 1);
    ModDouble(a, h);
  }

  /** The mask Go writes as a literal: `x & (2^k - 1)` is `x % 2^k`. */
  lemma AndLowMask(x: Word, k: nat)
    requires Pow2(k) - 1 < Modulus
    ensures And(x, Pow2(k) - 1) == x % Pow2(k)
  {
    BitAndLowMask(x, k);
  }
}
