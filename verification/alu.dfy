/**
 * The processor-state checks of the CPU: zero_check, negative_check,
 * carry_check and overflow_check each force one bit of the status register
 * from a value and leave the others alone. Bit layout (NV-BDIZC): bit 0 Carry,
 * 1 Zero, 2 Interrupt disable, 3 Decimal, 4 Break, 5 unused, 6 Overflow,
 * 7 Negative.
 */
module Alu {
  import opened Bits

  const CARRY: nat := 0
  const ZERO: nat := 1
  const INTERRUPT: nat := 2
  const BREAK: nat := 4
  const OVERFLOW: nat := 6
  const NEGATIVE: nat := 7

  /** Every bit of `a` outside `changed` equals the same bit of `b`. */
  ghost predicate SameBitsExcept(a: int, b: int, changed: set<nat>) {
    forall k: nat :: k !in changed ==> CheckBit(a, k) == CheckBit(b, k)
  }

  /** Bits kept by two updates in a row are kept by both together. */
  lemma SameBitsTrans(a: int, b: int, c: int, s1: set<nat>, s2: set<nat>)
    requires SameBitsExcept(a, b, s1) && SameBitsExcept(b, c, s2)
    ensures SameBitsExcept(a, c, s1 + s2)
  {
  }

  /** An update that keeps every bit outside a set without Break keeps Break. */
  lemma KeepsBreak(a: int, b: int, changed: set<nat>)
    requires SameBitsExcept(a, b, changed) && BREAK !in changed
    ensures CheckBit(a, BREAK) == CheckBit(b, BREAK)
  {
  }

  /** zero_check(val): Zero is set exactly when val is 0. */
  function ZeroCheck(flags: int, val: int): (r: int)
    ensures CheckBit(r, ZERO) <==> val == 0
    ensures SameBitsExcept(r, flags, {ZERO})
  {
    if val == 0 then SetBit(flags, ZERO, true) else SetBit(flags, ZERO, false)
  }

  /** negative_check(val): Negative copies bit 7 of val. */
  function NegativeCheck(flags: int, val: int): (r: int)
    ensures CheckBit(r, NEGATIVE) <==> CheckBit(val, 7)
    ensures SameBitsExcept(r, flags, {NEGATIVE})
  {
    if CheckBit(val, 7) then SetBit(flags, NEGATIVE, true) else SetBit(flags, NEGATIVE, false)
  }

  /** carry_check(val): Carry is set exactly when val exceeds 255. */
  function CarryCheck(flags: int, val: int): (r: int)
    ensures CheckBit(r, CARRY) <==> val > 255
    ensures SameBitsExcept(r, flags, {CARRY})
  {
    if val > 255 then SetBit(flags, CARRY, true) else SetBit(flags, CARRY, false)
  }

  /** val1 and val2 agree in bit 7 and their plain sum (no carry-in) does not. */
  predicate SignedOverflow(val1: int, val2: int) {
    CheckBit(val1, 7) == CheckBit(val2, 7) && CheckBit(val1 + val2, 7) != CheckBit(val1, 7)
  }

  /** overflow_check(val1, val2): Overflow is set exactly on a signed overflow of val1 + val2. */
  function OverflowCheck(flags: int, val1: int, val2: int): (r: int)
    ensures CheckBit(r, OVERFLOW) <==> SignedOverflow(val1, val2)
    ensures SameBitsExcept(r, flags, {OVERFLOW})
  {
    var sum := val1 + val2;
    if CheckBit(val1, 7) && CheckBit(val2, 7) && !CheckBit(sum, 7) then SetBit(flags, OVERFLOW, true)
    else if !CheckBit(val1, 7) && !CheckBit(val2, 7) && CheckBit(sum, 7) then SetBit(flags, OVERFLOW, true)
    else SetBit(flags, OVERFLOW, false)
  }

  /** zero_check(v) followed by negative_check(v), as every load and transfer does. */
  function Nz(flags: int, v: int): (r: int)
    ensures CheckBit(r, ZERO) <==> v == 0
    ensures CheckBit(r, NEGATIVE) <==> CheckBit(v, 7)
    ensures SameBitsExcept(r, flags, {ZERO, NEGATIVE})
  {
    NegativeCheck(ZeroCheck(flags, v), v)
  }

  /** For a byte, Negative ends up set exactly when the byte is at least 0x80. */
  lemma NegativeIffHigh(flags: int, v: int)
    requires 0 <= v < 256
    ensures CheckBit(NegativeCheck(flags, v), NEGATIVE) <==> v >= 0x80
  {
    assert Pow2(7) == 0x80;
    CheckBitHigh(v, 7);
  }

  /** Setting or clearing one of the eight flag bits keeps the status register a byte. */
  lemma FlagsStayByte(flags: int, n: nat, v: bool)
    requires 0 <= flags < 256 && n < 8
    ensures 0 <= SetBit(flags, n, v) < 256
  {
    assert Pow2(8) == 256;
  }
}
