/**
  Fixed-width unsigned integers of the firmware, as ranges of `int`, and the
  C arithmetic the engine relies on (truncating division, wrap-around on
  conversion to an unsigned type).
 */
module Ints {

  type u8 = x: int | 0 <= x < 0x100
  type u16 = x: int | 0 <= x < 0x1_0000
  type u32 = x: int | 0 <= x < 0x1_0000_0000

  const U16_MOD := 0x1_0000
  const U32_MOD := 0x1_0000_0000

  /**
    Conversion of any C integer value to `uint8_t`, `uint16_t` and
    `uint32_t`: reduction modulo 2^8, 2^16, 2^32. They are written as
    repeated addition or subtraction of the modulus, so the solver unfolds
    them into comparisons instead of reasoning about a remainder;
    `WrapIsMod` shows each is the Euclidean remainder.
   */
  function Wrap(x: int, m: nat): (r: int)
    requires m > 0
    ensures 0 <= r < m
    ensures 0 <= x < m ==> r == x
    ensures x < 0 <= x + m ==> r == x + m
    ensures m <= x < 2 * m ==> r == x - m
    decreases if x < 0 then m - x else x
  {
    if x < 0 then Wrap(x + m, m) else if x < m then x else Wrap(x - m, m)
  }

  lemma WrapIsMod(x: int, m: nat)
    requires m > 0
    ensures Wrap(x, m) == x % m
  {
    var q := WrapQuotient(x, m);
    DivModUnique(x, m, q, Wrap(x, m));
  }

  /** Each step of `Wrap` adds or removes one multiple of the modulus. */
  lemma {:induction false} WrapQuotient(x: int, m: nat) returns (q: int)
    requires m > 0
    ensures x == m * q + Wrap(x, m)
    decreases if x < 0 then m - x else x
  {
    if x < 0 {
      var q' := WrapQuotient(x + m, m);
      q := q' - 1;
      MulShift(m, q);
    } else if x < m {
      q := 0;
    } else {
      var q' := WrapQuotient(x - m, m);
      q := q' + 1;
      MulShift(m, q');
    }
  }

  lemma MulShift(m: int, q: int)
    ensures m * (q + 1) == m * q + m
  {
  }

  function ToU8(x: int): (r: u8)
    ensures 0 <= x < 0x100 ==> r == x
  {
    Wrap(x, 0x100)
  }

  function ToU16(x: int): (r: u16)
    ensures 0 <= x < U16_MOD ==> r == x
  {
    Wrap(x, U16_MOD)
  }

  function ToU32(x: int): (r: u32)
    ensures 0 <= x < U32_MOD ==> r == x
  {
    Wrap(x, U32_MOD)
  }

  /** C division of `int` values, which truncates toward zero. */
  function CDiv(x: int, d: int): int
    requires d > 0
  {
    if x >= 0 then x / d else -((-x) / d)
  }

  /**
    C's `a / b` on unsigned operands with a divisor that is not a constant,
    written as repeated subtraction. `QuotRemIsDivMod` shows it is Euclidean
    division; as a recursive function its value is passed along by the
    solver without non-linear reasoning.
   */
  function Quot(a: nat, b: nat): (q: nat)
    requires b > 0
    ensures q <= a
    decreases a
  {
    if a < b then 0 else 1 + Quot(a - b, b)
  }

  /** C's `a % b` on unsigned operands with a divisor that is not a constant. */
  function Rem(a: nat, b: nat): (r: nat)
    requires b > 0
    ensures r < b && r <= a
    decreases a
  {
    if a < b then a else Rem(a - b, b)
  }

  lemma {:induction false} QuotRemIsDivMod(a: nat, b: nat)
    requires b > 0
    ensures Quot(a, b) == a / b && Rem(a, b) == a % b
    decreases a
  {
    if a >= b {
      QuotRemIsDivMod(a - b, b);
      MulShift(b, Quot(a - b, b));
      DivModUnique(a, b, Quot(a - b, b) + 1, Rem(a - b, b));
    }
  }

  /** Division is determined by its quotient-remainder decomposition. */
  lemma DivModUnique(a: int, b: int, q: int, r: int)
    requires b > 0 && 0 <= r < b && a == b * q + r
    ensures q == a / b && r == a % b
  {
    var q', r' := a / b, a % b;
    var d := q - q';
    assert b * d == r' - r by {
      assert a == b * q' + r';
      assert b * q - b * q' == b * d;
    }
    if d >= 1 {
      MulAtLeast(b, d);
    } else if d <= -1 {
      MulAtLeast(b, -d);
    }
  }

  lemma MulAtLeast(b: int, d: int)
    requires b > 0 && d >= 1
    ensures b * d >= b
  {
  }

  /** Reducing the first summand first does not change a remainder. */
  lemma ModAddLeft(x: int, y: int, n: int)
    requires n > 0
    ensures (x % n + y) % n == (x + y) % n
  {
    var q, t := x / n, (x % n + y) / n;
    var e := (x % n + y) % n;
    assert x == n * q + x % n;
    assert x % n + y == n * t + e;
    assert n * q + n * t == n * (q + t);
    DivModUnique(x + y, n, q + t, e);
  }

  /** `pos` is `(x + j) mod n` exactly when `j` is `(pos - x) mod n`, for `pos` and `j` below `n`. */
  lemma ModHit(pos: int, x: int, j: int, n: int)
    requires n > 0 && 0 <= pos < n && 0 <= j < n
    ensures (pos == (x + j) % n) == ((pos - x) % n == j)
  {
    var t, d := (pos - x) / n, (pos - x) % n;
    assert pos - x == n * t + d;
    var u, e := (x + j) / n, (x + j) % n;
    assert x + j == n * u + e;
    if e == pos {
      assert j == n * (t + u) + d by {
        assert n * t + n * u == n * (t + u);
      }
      DivModUnique(j, n, t + u, d);
      DivModUnique(j, n, 0, j);
      assert d == j;
    }
    if d == j {
      assert x + j == n * (-t) + pos by {
        assert n * (-t) == -(n * t);
      }
      DivModUnique(x + j, n, -t, pos);
      assert e == pos;
    }
  }

  /** `ModHit` for the unsigned remainder `Rem` and the wrapped difference `Wrap`. */
  lemma RemHit(pos: int, x: nat, j: nat, n: nat)
    requires n > 0 && 0 <= pos < n && j < n
    ensures (pos == Rem(x + j, n)) == (Wrap(pos - x, n) == j)
  {
    QuotRemIsDivMod(x + j, n);
    WrapIsMod(pos - x, n);
    ModHit(pos, x, j, n);
  }

  /** C's `x >> k` on a (possibly negative) `int`: GCC shifts arithmetically, i.e. rounds toward minus infinity. */
  function Sar(x: int, k: nat): int
  {
    x / Pow2(k)
  }

  function Pow2(k: nat): (r: nat)
    ensures r >= 1
  {
    if k == 0 then 1 else 2 * Pow2(k - 1)
  }

  /** C's `a & b` on unsigned operands, bit by bit from the lowest. */
  function BitAnd(a: int, b: int): int
    decreases a
  {
    if a <= 0 || b <= 0 then 0
    else 2 * BitAnd(a / 2, b / 2) + (if a % 2 == 1 && b % 2 == 1 then 1 else 0)
  }

  /** `q << k` on a non-negative `q` without a width: `k` doublings. */
  function Shl(q: int, k: nat): (r: int)
    ensures q >= 0 ==> r >= 0
  {
    if k == 0 then q else 2 * Shl(q, k - 1)
  }

  lemma ShlBytes(q: int)
    ensures Shl(q, 7) == q * 128 && Shl(q, 8) == q * 256
  {
    assert Shl(q, 1) == q * 2;
    assert Shl(q, 2) == q * 4;
    assert Shl(q, 3) == q * 8;
    assert Shl(q, 4) == q * 16;
    assert Shl(q, 5) == q * 32;
    assert Shl(q, 6) == q * 64;
  }

  /** `&` on the lowest bit and on the rest, for non-negative operands. */
  lemma BitAndLowBit(a: int, b: int, a2: int, b2: int, x: int, y: int)
    requires a >= 0 && b >= 0 && a2 == a / 2 && b2 == b / 2 && x == a % 2 && y == b % 2
    ensures BitAnd(a, b) == 2 * BitAnd(a2, b2) + (if x == 1 && y == 1 then 1 else 0)
  {
    if a == 0 {
      assert BitAnd(a2, b2) == 0;
    } else if b == 0 {
      assert BitAnd(a2, b2) == 0;
    }
  }

  /** Masking with `2^j - 1` keeps the low `j` bits and drops the rest. */
  lemma {:induction false} BitAndLowMask(q: int, r: int, j: nat)
    requires q >= 0 && 0 <= r < Pow2(j)
    ensures BitAnd(Shl(q, j) + r, Pow2(j) - 1) == r
    decreases j
  {
    if j == 0 {
      assert BitAnd(Shl(q, j) + r, 0) == 0;
    } else {
      BitAndLowMask(q, r / 2, j - 1);
      BitAndLowMaskStep(q, r, j);
    }
  }

  lemma BitAndLowMaskStep(q: int, r: int, j: nat)
    requires j > 0 && q >= 0 && 0 <= r < Pow2(j)
    requires BitAnd(Shl(q, j - 1) + r / 2, Pow2(j - 1) - 1) == r / 2
    ensures BitAnd(Shl(q, j) + r, Pow2(j) - 1) == r
  {
    ShlHalf(q, r, j);
    Pow2Half(j);
    BitAndLowBit(Shl(q, j) + r, Pow2(j) - 1, Shl(q, j - 1) + r / 2, Pow2(j - 1) - 1, r % 2, 1);
  }

  lemma Pow2Half(j: nat)
    requires j > 0
    ensures (Pow2(j) - 1) / 2 == Pow2(j - 1) - 1 && (Pow2(j) - 1) % 2 == 1 && Pow2(j) == 2 * Pow2(j - 1)
  {
    var h := Pow2(j - 1);
    assert Pow2(j) == 2 * h;
    DivModUnique(2 * h - 1, 2, h - 1, 1);
  }

  /** `&` works on the bits above `k` and the `k` bits below separately. */
  lemma {:induction false} BitAndSplit(q: int, r: int, m: int, s: int, k: nat)
    requires q >= 0 && m >= 0 && 0 <= r < Pow2(k) && 0 <= s < Pow2(k)
    ensures BitAnd(Shl(q, k) + r, Shl(m, k) + s) == Shl(BitAnd(q, m), k) + BitAnd(r, s)
    decreases k
  {
    if k == 0 {
      assert r == 0 && s == 0 && BitAnd(r, s) == 0;
    } else {
      BitAndSplit(q, r / 2, m, s / 2, k - 1);
      BitAndSplitStep(q, r, m, s, k);
    }
  }

  /** The inductive step of `BitAndSplit`: the lowest bit, then the rest. */
  lemma BitAndSplitStep(q: int, r: int, m: int, s: int, k: nat)
    requires k > 0 && q >= 0 && m >= 0 && 0 <= r < Pow2(k) && 0 <= s < Pow2(k)
    requires BitAnd(Shl(q, k - 1) + r / 2, Shl(m, k - 1) + s / 2) == Shl(BitAnd(q, m), k - 1) + BitAnd(r / 2, s / 2)
    ensures BitAnd(Shl(q, k) + r, Shl(m, k) + s) == Shl(BitAnd(q, m), k) + BitAnd(r, s)
  {
    var a, b := Shl(q, k) + r, Shl(m, k) + s;
    var a2, b2 := Shl(q, k - 1) + r / 2, Shl(m, k - 1) + s / 2;
    ShlHalf(q, r, k);
    ShlHalf(m, s, k);
    BitAndLowBit(a, b, a2, b2, r % 2, s % 2);
    BitAndLowBit(r, s, r / 2, s / 2, r % 2, s % 2);
    ShlStep(BitAnd(q, m), k);
  }

  lemma ShlStep(x: int, k: nat)
    requires k > 0
    ensures Shl(x, k) == 2 * Shl(x, k - 1)
  {
  }

  lemma ShlHalf(q: int, r: int, k: nat)
    requires k > 0 && q >= 0 && r >= 0
    ensures (Shl(q, k) + r) / 2 == Shl(q, k - 1) + r / 2 && (Shl(q, k) + r) % 2 == r % 2
  {
  }

  /** The byte-wise instance of `BitAndSplit`. */
  lemma BitAndByte(q: int, r: int, m: int, s: int)
    requires q >= 0 && m >= 0 && 0 <= r < 256 && 0 <= s < 256
    ensures BitAnd(q * 256 + r, m * 256 + s) == BitAnd(q, m) * 256 + BitAnd(r, s)
  {
    Pow2Byte();
    BitAndSplit(q, r, m, s, 8);
    ShlBytes(q);
    ShlBytes(m);
    ShlBytes(BitAnd(q, m));
    assert q * 256 + r == Shl(q, 8) + r;
    assert m * 256 + s == Shl(m, 8) + s;
  }

  /** `x & 0x7F` is `x % 128`. */
  lemma BitAndLow7(x: int)
    requires x >= 0
    ensures BitAnd(x, 127) == x % 128
  {
    Pow2Byte();
    BitAndLowMask(x / 128, x % 128, 7);
    ShlBytes(x / 128);
    assert x == Shl(x / 128, 7) + x % 128;
  }

  /** `x & 0x7F7F7F7F` keeps the low seven bits of each of the four bytes of `x`. */
  lemma BitAndMask7F(x0: int, x1: int, x2: int, x3: int)
    requires 0 <= x0 < 256 && 0 <= x1 < 256 && 0 <= x2 < 256 && 0 <= x3
    ensures BitAnd(((x3 * 256 + x2) * 256 + x1) * 256 + x0, 0x7F7F7F7F)
      == ((x3 % 128 * 256 + x2 % 128) * 256 + x1 % 128) * 256 + x0 % 128
  {
    BitAndMask7F3(x1, x2, x3);
    BitAndByte7F((x3 * 256 + x2) * 256 + x1, x0, 0x7F7F7F);
  }

  lemma BitAndMask7F3(x1: int, x2: int, x3: int)
    requires 0 <= x1 < 256 && 0 <= x2 < 256 && 0 <= x3
    ensures BitAnd((x3 * 256 + x2) * 256 + x1, 0x7F7F7F) == (x3 % 128 * 256 + x2 % 128) * 256 + x1 % 128
  {
    BitAndByte7F(x3, x2, 0x7F);
    BitAndLow7(x3);
    assert BitAnd(x3 * 256 + x2, 0x7F7F) == x3 % 128 * 256 + x2 % 128;
    BitAndByte7F(x3 * 256 + x2, x1, 0x7F7F);
  }

  /** One more byte under a `0x7F` mask byte. */
  lemma BitAndByte7F(q: int, r: int, m: int)
    requires q >= 0 && m >= 0 && 0 <= r < 256
    ensures BitAnd(q * 256 + r, m * 256 + 127) == BitAnd(q, m) * 256 + r % 128
  {
    BitAndByte(q, r, m, 127);
    BitAndLow7(r);
  }

  lemma Pow2Byte()
    ensures Pow2(7) == 128 && Pow2(8) == 256
  {
    assert Pow2(4) == 16;
  }

  /** Conversion of a `uint32_t` to `int` (two's complement on the target). */
  function ToInt32(x: u32): (r: int)
    ensures -0x8000_0000 <= r < 0x8000_0000
    ensures ToU32(r) == x
  {
    if x < 0x8000_0000 then x else x - U32_MOD
  }

  function Max(a: int, b: int): int { if a > b then a else b }
  function Min(a: int, b: int): int { if a < b then a else b }
}
