/**
 * The bit helpers the CPU takes from its utility module: check_bit, set_bit,
 * hcat, badd, bsub and decomp, plus Python's `&` and `^` on integers.
 * The helpers' own source is not part of this model; each definition below
 * is the reading their call sites imply (see README). Python integers are
 * unbounded two's complement, and so are these: `x / 2` is Python's
 * `x >> 1` (floor division) and `x % 256` is `x & 0xFF` for every int.
 */
module Bits {

  function Pow2(n: nat): (p: nat)
    ensures p >= 1
  {
    if n == 0 then 1 else 2 * Pow2(n - 1)
  }

  /** check_bit(x, n): bit n of x. */
  function CheckBit(x: int, n: nat): bool
    decreases n
  {
    if n == 0 then x % 2 == 1 else CheckBit(x / 2, n - 1)
  }

  /** set_bit(x, n, v): x with bit n forced to v and every other bit kept. */
  function SetBit(x: int, n: nat, v: bool): (r: int)
    ensures CheckBit(r, n) == v
    ensures forall k: nat :: k != n ==> CheckBit(r, k) == CheckBit(x, k)
    ensures forall w: nat :: 0 <= x < Pow2(w) && n < w ==> 0 <= r < Pow2(w)
    decreases n
  {
    if n == 0 then x - x % 2 + (if v then 1 else 0)
    else 2 * SetBit(x / 2, n - 1, v) + x % 2
  }

  /** hcat(hi, lo): the 16-bit word whose high byte is hi and low byte is lo. */
  function Hcat(hi: int, lo: int): (r: int)
    ensures 0 <= hi < 256 && 0 <= lo < 256 ==> 0 <= r < 0x1_0000 && r / 256 == hi && r % 256 == lo
  {
    hi * 256 + lo
  }

  /** badd(a, b, c): 8-bit sum with carry-in, and the carry out. */
  function Badd(a: int, b: int, carryIn: bool := false): (r: (int, bool))
    ensures 0 <= r.0 < 256
    ensures r.1 <==> a + b + (if carryIn then 1 else 0) > 255
    ensures 0 <= a + b + (if carryIn then 1 else 0) < 512 ==>
              r.0 + (if r.1 then 256 else 0) == a + b + (if carryIn then 1 else 0)
  {
    var sum := a + b + (if carryIn then 1 else 0);
    (sum % 256, sum > 255)
  }

  /** bsub(a, b): 8-bit difference and a carry meaning "no borrow". */
  function Bsub(a: int, b: int): (r: (int, bool))
    ensures 0 <= r.0 < 256
    ensures 0 <= b <= a < 256 ==> r.0 == a - b
    ensures 0 <= a < b < 256 ==> r.0 == a - b + 256
  {
    ((a - b) % 256, a >= b)
  }

  /** decomp(b): the magnitude of b read as a negative two's-complement byte. */
  function Decomp(b: int): (r: int)
    ensures 0 <= r < 256
    ensures 128 <= b < 256 ==> r == 256 - b && 1 <= r <= 128
  {
    (-b) % 256
  }

  /** Python's `a & b` on unbounded two's-complement integers. */
  function BitAnd(a: int, b: int): int
    decreases Abs(a) + Abs(b)
  {
    if a == 0 || b == 0 then 0
    else if a == -1 then b
    else if b == -1 then a
    else 2 * BitAnd(a / 2, b / 2) + (if a % 2 == 1 && b % 2 == 1 then 1 else 0)
  }

  /** Python's `a ^ b` on unbounded two's-complement integers. */
  function BitXor(a: int, b: int): int
    decreases Abs(a) + Abs(b)
  {
    if a == 0 then b
    else if b == 0 then a
    else if a == -1 then -1 - b
    else if b == -1 then -1 - a
    else 2 * BitXor(a / 2, b / 2) + (if a % 2 != b % 2 then 1 else 0)
  }

  function Abs(x: int): nat {
    if x < 0 then -x else x
  }

  lemma {:induction false} CheckBitZero(k: nat)
    ensures !CheckBit(0, k)
  {
    if k > 0 { CheckBitZero(k - 1); }
  }

  lemma {:induction false} CheckBitMinusOne(k: nat)
    ensures CheckBit(-1, k)
  {
    if k > 0 { CheckBitMinusOne(k - 1); }
  }

  /** Python's `~b` is -1 - b: every bit flips. */
  lemma {:induction false} CheckBitNot(b: int, k: nat)
    ensures CheckBit(-1 - b, k) == !CheckBit(b, k)
    decreases k
  {
    if k > 0 {
      assert (-1 - b) / 2 == -1 - b / 2;
      CheckBitNot(b / 2, k - 1);
    }
  }

  /** Bit n of a number below 2^(n+1) is set exactly when it is at least 2^n. */
  lemma {:induction false} CheckBitHigh(x: int, n: nat)
    requires 0 <= x < 2 * Pow2(n)
    ensures CheckBit(x, n) <==> x >= Pow2(n)
  {
    if n > 0 { CheckBitHigh(x / 2, n - 1); }
  }

  /** The only bit of 2^n is bit n. */
  lemma {:induction false} CheckBitPow2(n: nat, k: nat)
    ensures CheckBit(Pow2(n), k) <==> k == n
  {
    if n == 0 {
      if k > 0 { CheckBitZero(k - 1); }
    } else if k > 0 {
      CheckBitPow2(n - 1, k - 1);
    }
  }

  /** `&` works bit by bit. */
  lemma {:induction false} BitAndBits(a: int, b: int, k: nat)
    ensures CheckBit(BitAnd(a, b), k) == (CheckBit(a, k) && CheckBit(b, k))
    decreases Abs(a) + Abs(b)
  {
    if a == 0 || b == 0 {
      CheckBitZero(k);
    } else if a == -1 || b == -1 {
      CheckBitMinusOne(k);
    } else if k > 0 {
      var r := BitAnd(a, b);
      assert r / 2 == BitAnd(a / 2, b / 2);
      BitAndBits(a / 2, b / 2, k - 1);
    }
  }

  /** `^` works bit by bit. */
  lemma {:induction false} BitXorBits(a: int, b: int, k: nat)
    ensures CheckBit(BitXor(a, b), k) == (CheckBit(a, k) != CheckBit(b, k))
    decreases Abs(a) + Abs(b)
  {
    if a == 0 || b == 0 {
      CheckBitZero(k);
    } else if a == -1 {
      CheckBitMinusOne(k);
      CheckBitNot(b, k);
    } else if b == -1 {
      CheckBitMinusOne(k);
      CheckBitNot(a, k);
    } else if k > 0 {
      var r := BitXor(a, b);
      assert r / 2 == BitXor(a / 2, b / 2);
      BitXorBits(a / 2, b / 2, k - 1);
    }
  }

  /** Masking with a single bit, `a & 2^k`, keeps exactly that bit. */
  lemma {:induction false} BitAndPow2(a: int, k: nat)
    ensures BitAnd(a, Pow2(k)) == if CheckBit(a, k) then Pow2(k) else 0
    decreases k
  {
    if a == 0 {
      CheckBitZero(k);
    } else if a == -1 {
      CheckBitMinusOne(k);
    } else if k > 0 {
      BitAndPow2(a / 2, k - 1);
    }
  }

  /** Every bit of `a & b` at once. */
  lemma BitAndEveryBit(a: int, b: int)
    ensures forall k: nat :: CheckBit(BitAnd(a, b), k) == (CheckBit(a, k) && CheckBit(b, k))
  {
    forall k: nat
      ensures CheckBit(BitAnd(a, b), k) == (CheckBit(a, k) && CheckBit(b, k))
    {
      BitAndBits(a, b, k);
    }
  }

  /** `^` of two non-negative integers is non-negative. */
  lemma {:induction false} BitXorNonNegative(a: int, b: int)
    requires 0 <= a && 0 <= b
    ensures 0 <= BitXor(a, b)
    decreases a + b
  {
    if a != 0 && b != 0 {
      BitXorNonNegative(a / 2, b / 2);
    }
  }

  /** Two non-negative integers with the same bits are equal. */
  lemma {:induction false} SameBitsEqual(a: int, b: int)
    requires 0 <= a && 0 <= b
    requires forall k: nat :: CheckBit(a, k) == CheckBit(b, k)
    ensures a == b
    decreases a + b
  {
    if a != b {
      assert CheckBit(a, 0) == CheckBit(b, 0);
      forall k: nat
        ensures CheckBit(a / 2, k) == CheckBit(b / 2, k)
      {
        assert CheckBit(a, k + 1) == CheckBit(b, k + 1);
      }
      SameBitsEqual(a / 2, b / 2);
    }
  }

  lemma ModMultiple(y: int, q: int)
    ensures (y + 256 * q) % 256 == y % 256
  {
  }

  /** Reducing modulo 256 before a subtraction does not change the result modulo 256. */
  lemma ModSubLeft(x: int, c: int)
    ensures (x % 256 - c) % 256 == (x - c) % 256
  {
    ModMultiple(x % 256 - c, x / 256);
  }
}
