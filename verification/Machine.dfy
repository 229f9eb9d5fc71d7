/**
 Unsigned machine integers as bounded naturals, with the bit operations that the
 modelled files apply to them: masks, shifts, and rounding to a power of two.
 Every operation that C++ lets wrap is written with an explicit remainder.
 */
module Machine {

  const TWO_32: nat := 0x1_0000_0000
  const TWO_64: nat := 0x1_0000_0000_0000_0000
  const MAX_32: nat := TWO_32 - 1
  const MAX_64: nat := TWO_64 - 1

  type u8 = x: int | 0 <= x < 256
  type u16 = x: int | 0 <= x < 0x1_0000
  type u32 = x: int | 0 <= x < TWO_32
  type u64 = x: int | 0 <= x < TWO_64

  function Min(x: int, y: int): int { if x < y then x else y }

  function Max(x: int, y: int): int { if x < y then y else x }

  function Pow2(n: nat): (r: nat)
    ensures r > 0
  {
    if n == 0 then 1 else 2 * Pow2(n - 1)
  }

  /** Bitwise and. */
  function And(x: nat, y: nat): (r: nat)
    ensures r <= x && r <= y
  {
    if x == 0 || y == 0 then 0 else 2 * And(x / 2, y / 2) + (if x % 2 == 1 && y % 2 == 1 then 1 else 0)
  }

  /** Bitwise or. */
  function Or(x: nat, y: nat): nat
  {
    if x == 0 then y else if y == 0 then x
    else 2 * Or(x / 2, y / 2) + (if x % 2 == 1 || y % 2 == 1 then 1 else 0)
  }

  /** Bitwise exclusive or. */
  function Xor(x: nat, y: nat): nat
  {
    if x == 0 then y else if y == 0 then x
    else 2 * Xor(x / 2, y / 2) + (if x % 2 != y % 2 then 1 else 0)
  }

  /** `x ^ 3` mirrors the last two bits. */
  lemma {:induction false} XorThree(x: nat)
    ensures Xor(x, 3) == x - x % 4 + (3 - x % 4)
  {
    assert Xor(x / 2, 1) == if x / 2 % 2 == 0 then x / 2 + 1 else x / 2 - 1 by { XorOne(x / 2); }
    assert x % 4 == 2 * (x / 2 % 2) + x % 2;
  }

  lemma {:induction false} XorOne(x: nat)
    ensures Xor(x, 1) == if x % 2 == 0 then x + 1 else x - 1
  {
    assert x > 1 ==> Xor(x / 2, 0) == x / 2;
  }

  /** Bitwise complement in 64 bits. */
  function Not64(x: u64): u64 { MAX_64 - x }

  /** Left shift in 64 bits: the bits shifted past bit 63 are lost. */
  function Shl64(x: u64, n: nat): u64 { x * Pow2(n) % TWO_64 }

  predicate TestBit(x: nat, i: nat)
  {
    if i == 0 then x % 2 == 1 else TestBit(x / 2, i - 1)
  }

  predicate IsPow2(a: nat)
  {
    a == 1 || (a > 0 && a % 2 == 0 && IsPow2(a / 2))
  }

  function Log2(a: nat): (k: nat)
    requires IsPow2(a)
    ensures a == Pow2(k)
  {
    if a == 1 then 0 else 1 + Log2(a / 2)
  }

  /** The mask test `a & (a - 1)` recognises exactly the powers of two. */
  lemma {:induction false} MaskTest(a: nat)
    requires a > 0
    ensures And(a, a - 1) == 0 <==> IsPow2(a)
  {
    if a % 2 == 0 {
      assert (a - 1) / 2 == a / 2 - 1 && (a - 1) % 2 == 1;
      MaskTest(a / 2);
    } else if a > 1 {
      assert (a - 1) / 2 == a / 2;
      AndSelf(a / 2);
    }
  }

  lemma {:induction false} AndSelf(x: nat)
    ensures And(x, x) == x
  {
    if x > 0 { AndSelf(x / 2); }
  }

  lemma {:induction false} ModDouble(x: nat, p: nat)
    requires p > 0
    ensures x % (2 * p) == 2 * (x / 2 % p) + x % 2
  {
    var q, r := x / 2 / p, x / 2 % p;
    assert x == 2 * (q * p + r) + x % 2 == q * (2 * p) + (2 * r + x % 2);
    ModUnique(x, 2 * p, q, 2 * r + x % 2);
  }

  lemma {:induction false} ModUnique(x: int, m: nat, q: int, r: int)
    requires 0 <= r < m && x == q * m + r
    ensures x / m == q && x % m == r
  {
    var q', r' := x / m, x % m;
    assert (q - q') * m == r' - r;
    if q > q' { MulAtLeast(q - q', m); } else if q < q' { MulAtLeast(q' - q, m); }
  }

  lemma {:induction false} MulAtLeast(x: int, m: nat)
    requires x >= 1
    ensures x * m >= m
  {}

  lemma {:induction false} AndHighMask(x: nat, k: nat, w: nat)
    requires k <= w && x < Pow2(w)
    ensures Pow2(k) <= Pow2(w)
    ensures And(x, Pow2(w) - Pow2(k)) == x - x % Pow2(k)
  {
    if w > 0 {
      if k > 0 {
        AndHighMask(x / 2, k - 1, w - 1);
        ModDouble(x, Pow2(k - 1));
        assert (Pow2(w) - Pow2(k)) / 2 == Pow2(w - 1) - Pow2(k - 1);
        assert (Pow2(w) - Pow2(k)) % 2 == 0;
      } else {
        AndHighMask(x / 2, 0, w - 1);
        assert (Pow2(w) - 1) / 2 == Pow2(w - 1) - 1 && (Pow2(w) - 1) % 2 == 1;
      }
    }
  }

  /** The smallest multiple of `a` that is at least `x`. */
  function RoundUp(x: nat, a: nat): nat
    requires a > 0
  {
    (x + a - 1) - (x + a - 1) % a
  }

  lemma {:induction false} MultipleMod(q: int, a: nat)
    requires a > 0
    ensures q * a % a == 0
  {
    ModUnique(q * a, a, q, 0);
  }

  lemma {:induction false} RoundUpFacts(x: nat, a: nat)
    requires a > 0
    ensures x <= RoundUp(x, a) < x + a && RoundUp(x, a) % a == 0
  {
    var y := x + a - 1;
    MultipleMod(y / a, a);
    assert RoundUp(x, a) == y / a * a;
  }

  /** A multiple of `a` within `a - 1` above `x` is the rounding of `x`. */
  lemma {:induction false} RoundUpUnique(x: nat, a: nat, y: nat)
    requires a > 0 && y % a == 0 && x <= y < x + a
    ensures RoundUp(x, a) == y
  {
    var z := RoundUp(x, a);
    RoundUpFacts(x, a);
    var p, q := y / a, z / a;
    assert y == p * a && z == q * a;
    assert (p - q) * a == y - z;
    if p > q { MulAtLeast(p - q, a); } else if p < q { MulAtLeast(q - p, a); }
  }

  /** No multiple of `a` lies between `x` and its rounding. */
  lemma {:induction false} RoundUpLeast(x: nat, a: nat, y: nat)
    requires a > 0 && y % a == 0 && x <= y
    ensures RoundUp(x, a) <= y
  {
    RoundUpFacts(x, a);
    var p, q := y / a, RoundUp(x, a) / a;
    assert y == p * a && RoundUp(x, a) == q * a;
    assert (q - p) * a == RoundUp(x, a) - y;
    if q > p { MulAtLeast(q - p, a); } else { MulAtMost(q - p, a); }
  }

  lemma {:induction false} MulAtMost(x: int, m: nat)
    requires x <= 0
    ensures x * m <= 0
  {}

  lemma {:induction false} SumMod(x: int, d: int, a: nat)
    requires a > 0 && x % a == 0 && d % a == 0
    ensures (x + d) % a == 0
  {
    assert x + d == (x / a + d / a) * a;
    MultipleMod(x / a + d / a, a);
  }

  lemma {:induction false} Pow2Sum(m: nat, n: nat)
    ensures Pow2(m + n) == Pow2(m) * Pow2(n)
  {
    if m > 0 {
      Pow2Sum(m - 1, n);
      DoubleProduct(Pow2(m - 1), Pow2(n));
    }
  }

  lemma {:induction false} DoubleProduct(x: int, y: int)
    ensures 2 * (x * y) == (2 * x) * y
  {}

  lemma {:induction false} Pow2Monotone(m: nat, n: nat)
    requires m <= n
    ensures Pow2(m) <= Pow2(n)
    decreases n
  {
    if m < n { Pow2Monotone(m, n - 1); }
  }

  lemma {:induction false} Pow2NextByte(n: nat)
    ensures Pow2(n + 8) == 256 * Pow2(n)
  {
    assert Pow2(n + 2) == 4 * Pow2(n);
    assert Pow2(n + 4) == 4 * Pow2(n + 2);
    assert Pow2(n + 6) == 4 * Pow2(n + 4);
  }

  lemma {:induction false} Pow2Of64()
    ensures Pow2(32) == TWO_32 && Pow2(64) == TWO_64
  {
    Pow2NextByte(0); Pow2NextByte(8); Pow2NextByte(16); Pow2NextByte(24);
    Pow2NextByte(32); Pow2NextByte(40); Pow2NextByte(48); Pow2NextByte(56);
  }

  /** `x & ~(a - 1)` clears exactly the remainder of `x` by a power of two. */
  lemma {:induction false} MaskRounds(x: u64, a: u64)
    requires IsPow2(a)
    ensures And(x, Not64(a - 1)) == x - x % a
  {
    hide And;
    var k := Log2(a);
    Pow2Of64();
    if k > 64 { Pow2Monotone(64, k); assert false; }
    AndHighMask(x, k, 64);
  }

  /** `x & (2^k - 1)` is the remainder by `2^k`. */
  lemma {:induction false} AndLowMask(x: nat, k: nat)
    ensures And(x, Pow2(k) - 1) == x % Pow2(k)
  {
    if k > 0 {
      AndLowMask(x / 2, k - 1);
      ModDouble(x, Pow2(k - 1));
      AndOdd(x, Pow2(k - 1) - 1);
    }
  }

  lemma {:induction false} AndOdd(x: nat, half: nat)
    ensures And(x, 2 * half + 1) == 2 * And(x / 2, half) + x % 2
  {
    assert (2 * half + 1) / 2 == half && (2 * half + 1) % 2 == 1;
  }

  /** Or-ing a shifted value above a smaller one adds them. */
  lemma {:induction false} OrAbove(low: nat, high: nat, k: nat)
    requires low < Pow2(k)
    ensures Or(low, high * Pow2(k)) == low + high * Pow2(k)
  {
    if k > 0 {
      OrAbove(low / 2, high, k - 1);
      HalfProduct(high, Pow2(k - 1));
      OrEven(low, high * Pow2(k - 1));
    }
  }

  lemma {:induction false} HalfProduct(x: nat, y: nat)
    ensures x * (2 * y) == 2 * (x * y)
  {}

  lemma {:induction false} OrEven(x: nat, half: nat)
    ensures Or(x, 2 * half) == 2 * Or(x / 2, half) + x % 2
  {
    assert 2 * half / 2 == half && 2 * half % 2 == 0;
    if half == 0 && x > 0 { assert Or(x / 2, 0) == x / 2; }
  }

  /** A flag test: `x & 2^k` is zero exactly when bit `k` is clear. */
  lemma {:induction false} AndBit(x: nat, k: nat)
    ensures And(x, Pow2(k)) == 0 <==> !TestBit(x, k)
  {
    if k > 0 {
      AndBit(x / 2, k - 1);
      assert Pow2(k) / 2 == Pow2(k - 1) && Pow2(k) % 2 == 0;
    } else if x > 0 {
      assert And(x / 2, 0) == 0;
    }
  }

  lemma {:induction false} OrBit(x: nat, y: nat, i: nat)
    ensures TestBit(Or(x, y), i) <==> TestBit(x, i) || TestBit(y, i)
  {
    if x == 0 || y == 0 {
      NoBits(i);
    } else if i > 0 {
      OrBit(x / 2, y / 2, i - 1);
      assert Or(x, y) / 2 == Or(x / 2, y / 2);
    }
  }

  lemma {:induction false} NoBits(i: nat)
    ensures !TestBit(0, i)
  {
    if i > 0 { NoBits(i - 1); }
  }

  /** The bits of a product by a power of two. */
  lemma {:induction false} ShiftedBit(x: nat, n: nat, i: nat)
    ensures TestBit(x * Pow2(n), i) <==> i >= n && TestBit(x, i - n)
  {
    if n > 0 {
      HalfProduct(x, Pow2(n - 1));
      var half := x * Pow2(n - 1);
      assert x * Pow2(n) == 2 * half;
      assert 2 * half / 2 == half && 2 * half % 2 == 0;
      if i > 0 { ShiftedBit(x, n - 1, i - 1); }
    }
  }

  /** A remainder by `2^k` keeps the low bits. */
  lemma {:induction false} LowBit(x: nat, k: nat, i: nat)
    requires i < k
    ensures TestBit(x % Pow2(k), i) == TestBit(x, i)
  {
    ModDouble(x, Pow2(k - 1));
    var r := x / 2 % Pow2(k - 1);
    assert (2 * r + x % 2) / 2 == r && (2 * r + x % 2) % 2 == x % 2;
    if i > 0 { LowBit(x / 2, k - 1, i - 1); }
  }

  lemma {:induction false} Shl64Bit(x: u64, n: nat, i: nat)
    requires i < 64
    ensures TestBit(Shl64(x, n), i) <==> i >= n && TestBit(x, i - n)
  {
    Pow2Of64();
    LowBit(x * Pow2(n), 64, i);
    ShiftedBit(x, n, i);
  }

  lemma {:induction false} Or64(x: u64, y: u64)
    ensures Or(x, y) < TWO_64
  {
    Pow2Of64();
    OrBelow(x, y, 64);
  }

  lemma {:induction false} OrBelow(x: nat, y: nat, k: nat)
    requires x < Pow2(k) && y < Pow2(k)
    ensures Or(x, y) < Pow2(k)
  {
    if x != 0 && y != 0 && k > 0 { OrBelow(x / 2, y / 2, k - 1); }
  }
}
