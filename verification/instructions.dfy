/**
 * The instruction bodies of the CPU, one function per method of the source,
 * each taking the value its caller passes (an operand, an address or a
 * pointer byte) and returning the next state. A body that reads or writes a
 * heap cell out of range raises IndexError; the `Raised` state is the one the
 * body had reached at that point.
 */
module Instructions {
  import opened Lists
  import opened Bits
  import opened Alu
  import opened MachineState

  // ---------------------------------------------------------------- unk, nop

  /** unk(opcode): an unknown opcode does nothing. */
  function Unk(m: Machine, opcode: int): (r: Machine)
    ensures r == m
  {
    m
  }

  /** nop(val): does nothing; its argument is the None that implied() returns. */
  function Nop(m: Machine): (r: Machine)
    ensures r == m
  {
    m
  }

  // ---------------------------------------------------------------- loads

  /** lda(val): AX takes val; Zero and Negative follow val; nothing else changes. */
  function Lda(m: Machine, val: int): (r: Machine)
    ensures r == m.(AX := val, flags := r.flags)
    ensures CheckBit(r.flags, ZERO) <==> val == 0
    ensures CheckBit(r.flags, NEGATIVE) <==> CheckBit(val, 7)
    ensures SameBitsExcept(r.flags, m.flags, {ZERO, NEGATIVE})
  {
    m.(AX := val, flags := Nz(m.flags, val))
  }

  /** ldx(val): X takes val; Zero and Negative follow val; nothing else changes. */
  function Ldx(m: Machine, val: int): (r: Machine)
    ensures r == m.(X := val, flags := r.flags)
    ensures CheckBit(r.flags, ZERO) <==> val == 0
    ensures CheckBit(r.flags, NEGATIVE) <==> CheckBit(val, 7)
    ensures SameBitsExcept(r.flags, m.flags, {ZERO, NEGATIVE})
  {
    m.(X := val, flags := Nz(m.flags, val))
  }

  /** ldy(val): Y takes val; Zero and Negative follow val; nothing else changes. */
  function Ldy(m: Machine, val: int): (r: Machine)
    ensures r == m.(Y := val, flags := r.flags)
    ensures CheckBit(r.flags, ZERO) <==> val == 0
    ensures CheckBit(r.flags, NEGATIVE) <==> CheckBit(val, 7)
    ensures SameBitsExcept(r.flags, m.flags, {ZERO, NEGATIVE})
  {
    m.(Y := val, flags := Nz(m.flags, val))
  }

  // ---------------------------------------------------------------- shifts

  /**
   * lsr_acc(): Carry takes bit 0 of AX and AX is halved (rounding down);
   * Zero and Negative are not touched.
   */
  function LsrAcc(m: Machine): (r: Machine)
    ensures r == m.(AX := r.AX, flags := r.flags)
    ensures 2 * r.AX + (if CheckBit(m.AX, 0) then 1 else 0) == m.AX
    ensures CheckBit(r.flags, CARRY) == CheckBit(m.AX, 0)
    ensures SameBitsExcept(r.flags, m.flags, {CARRY})
  {
    m.(flags := SetBit(m.flags, CARRY, CheckBit(m.AX, 0)), AX := m.AX / 2)
  }

  /**
   * lsr_zp(addr) and lsr_abs(addr), whose bodies are the same: Carry takes
   * bit 0 of the cell, which is halved in place. Neither advances `offset`.
   */
  function LsrMem(m: Machine, addr: int): (r: Exec<()>)
    ensures r.Ok? <==> InRange(m.heap, addr)
    ensures r.Raised? ==> r.m == m
    ensures r.Ok? ==>
              && r.m == m.(flags := r.m.flags, heap := r.m.heap)
              && Stored(m.heap, r.m.heap, addr, Cell(m, addr) / 2)
              && CheckBit(r.m.flags, CARRY) == CheckBit(Cell(m, addr), 0)
              && SameBitsExcept(r.m.flags, m.flags, {CARRY})
  {
    if !InRange(m.heap, addr) then Raised(m)
    else
      var val := Cell(m, addr);
      var m1 := m.(flags := SetBit(m.flags, CARRY, CheckBit(val, 0)));
      Done(m1.(heap := m1.heap[Slot(m1.heap, addr) := val / 2]))
  }

  // ---------------------------------------------------------------- arithmetic

  function CarryValue(flags: int): int {
    if CheckBit(flags, CARRY) then 1 else 0
  }

  /**
   * The flag updates adc and sbc share, in their order: Carry from the
   * helper's carry, Zero from the result, Overflow from the two operands,
   * Negative from the result.
   */
  function ArithFlags(flags: int, carry: bool, result: int, a: int, v: int): (r: int)
    ensures CheckBit(r, CARRY) == carry
    ensures CheckBit(r, ZERO) <==> result == 0
    ensures CheckBit(r, OVERFLOW) <==> SignedOverflow(a, v)
    ensures CheckBit(r, NEGATIVE) <==> CheckBit(result, 7)
    ensures SameBitsExcept(r, flags, {CARRY, ZERO, OVERFLOW, NEGATIVE})
  {
    var f1 := SetBit(flags, CARRY, carry);
    var f2 := ZeroCheck(f1, result);
    var f3 := OverflowCheck(f2, a, v);
    var f4 := NegativeCheck(f3, result);
    assert CheckBit(f2, CARRY) == carry;
    assert CheckBit(f3, CARRY) == carry && CheckBit(f3, ZERO) == (result == 0);
    SameBitsTrans(f2, f1, flags, {ZERO}, {CARRY});
    SameBitsTrans(f3, f2, flags, {OVERFLOW}, {ZERO, CARRY});
    SameBitsTrans(f4, f3, flags, {NEGATIVE}, {OVERFLOW, ZERO, CARRY});
    assert {NEGATIVE} + ({OVERFLOW} + ({ZERO} + {CARRY})) == {CARRY, ZERO, OVERFLOW, NEGATIVE};
    f4
  }

  /** Two bsub calls in a row subtract both operands modulo 256. */
  lemma SubtractTwice(a: int, b: int, c: int)
    ensures Bsub(Bsub(a, b).0, c).0 == (a - b - c) % 256
  {
    ModSubLeft(a - b, c);
  }

  /**
   * sbc(val): subtracts val and then the Carry bit (not its complement) from
   * AX modulo 256. Zero and Negative follow the new AX; Overflow is worked
   * out from the old AX and val alone; Carry takes bsub's carry.
   */
  function Sbc(m: Machine, val: int): (r: Machine)
    ensures r == m.(AX := r.AX, flags := r.flags)
    ensures 0 <= r.AX < 256 && r.AX == (m.AX - val - CarryValue(m.flags)) % 256
    ensures CheckBit(r.flags, ZERO) <==> r.AX == 0
    ensures CheckBit(r.flags, NEGATIVE) <==> CheckBit(r.AX, 7)
    ensures CheckBit(r.flags, OVERFLOW) <==> SignedOverflow(m.AX, val)
    ensures SameBitsExcept(r.flags, m.flags, {CARRY, ZERO, OVERFLOW, NEGATIVE})
  {
    var c := CarryValue(m.flags);
    var first := Bsub(m.AX, val).0;
    var second := Bsub(first, c);
    SubtractTwice(m.AX, val, c);
    assert 0 <= second.0 < 256 && second.0 == (m.AX - val - c) % 256;
    var f := ArithFlags(m.flags, second.1, second.0, m.AX, val);
    m.(flags := f, AX := second.0)
  }

  /**
   * adc(val): AX + val + Carry, modulo 256, with Carry set exactly when the
   * sum exceeds 255. Zero and Negative follow the new AX; Overflow is worked
   * out from the old AX and val alone.
   */
  function Adc(m: Machine, val: int): (r: Machine)
    ensures r == m.(AX := r.AX, flags := r.flags)
    ensures 0 <= r.AX < 256 && r.AX == (m.AX + val + CarryValue(m.flags)) % 256
    ensures CheckBit(r.flags, CARRY) <==> m.AX + val + CarryValue(m.flags) > 255
    ensures 0 <= m.AX < 256 && 0 <= val < 256 ==>
              r.AX + 256 * CarryValue(r.flags) == m.AX + val + CarryValue(m.flags)
    ensures CheckBit(r.flags, ZERO) <==> r.AX == 0
    ensures CheckBit(r.flags, NEGATIVE) <==> CheckBit(r.AX, 7)
    ensures CheckBit(r.flags, OVERFLOW) <==> SignedOverflow(m.AX, val)
    ensures SameBitsExcept(r.flags, m.flags, {CARRY, ZERO, OVERFLOW, NEGATIVE})
  {
    var sum := Badd(m.AX, val, CheckBit(m.flags, CARRY));
    assert sum.0 == (m.AX + val + CarryValue(m.flags)) % 256;
    assert sum.1 <==> m.AX + val + CarryValue(m.flags) > 255;
    var f := ArithFlags(m.flags, sum.1, sum.0, m.AX, val);
    m.(flags := f, AX := sum.0)
  }

  /** adc_im(val): adc with an immediate operand, one operand byte. */
  function AdcIm(m: Machine, val: int): (r: Machine)
    ensures r == Adc(m, val).(offset := m.offset + 1)
  {
    Adc(m, val).(offset := m.offset + 1)
  }

  /** adc_zp(addr): adc with the cell at addr, one operand byte. */
  function AdcZp(m: Machine, addr: int): (r: Exec<()>)
    ensures r.Ok? <==> InRange(m.heap, addr)
    ensures r.Raised? ==> r.m == m
    ensures r.Ok? ==> r.m == Adc(m, Cell(m, addr)).(offset := m.offset + 1)
  {
    if !InRange(m.heap, addr) then Raised(m)
    else Done(AdcIm(m, Cell(m, addr)))
  }

  /** sec(val): sets Carry and nothing else; its argument is the None that implied() returns. */
  function Sec(m: Machine): (r: Machine)
    ensures r == m.(flags := r.flags)
    ensures CheckBit(r.flags, CARRY)
    ensures SameBitsExcept(r.flags, m.flags, {CARRY})
  {
    m.(flags := SetBit(m.flags, CARRY, true))
  }

  /** clc(): clears Carry and nothing else. */
  function Clc(m: Machine): (r: Machine)
    ensures r == m.(flags := r.flags)
    ensures !CheckBit(r.flags, CARRY)
    ensures SameBitsExcept(r.flags, m.flags, {CARRY})
  {
    m.(flags := SetBit(m.flags, CARRY, false))
  }

  // ---------------------------------------------------------------- stores

  /**
   * The shape every store shares: write val at addr, then add `bytes` to
   * `offset`. A write out of range raises before `offset` moves.
   */
  function StoreAt(m: Machine, addr: int, val: int, bytes: nat): (r: Exec<()>)
    ensures r.Ok? <==> InRange(m.heap, addr)
    ensures r.Raised? ==> r.m == m
    ensures r.Ok? ==> r.m == m.(heap := r.m.heap, offset := m.offset + bytes) && Stored(m.heap, r.m.heap, addr, val)
  {
    match Write(m, addr, val)
    case None => Raised(m)
    case Some(m1) => Done(m1.(offset := m1.offset + bytes))
  }

  /** sta_zp(addr): AX stored at addr, one operand byte. */
  function StaZp(m: Machine, addr: int): (r: Exec<()>)
    ensures r.Ok? <==> InRange(m.heap, addr)
    ensures r.Raised? ==> r.m == m
    ensures r.Ok? ==> r.m == m.(heap := r.m.heap, offset := m.offset + 1) && Stored(m.heap, r.m.heap, addr, m.AX)
  {
    StoreAt(m, addr, m.AX, 1)
  }

  /**
   * The zero-page,X address as sta_zpx and sta_indx compute it: the test is
   * the reverse of the one the loads use, so a sum that stays in the zero
   * page has 255 taken off and one past it is kept.
   */
  function InvertedWrap(base: int, index: int): (a: int)
    ensures base + index > 255 ==> a == base + index
    ensures base + index <= 255 ==> a == base + index - 255
    ensures 0 <= base < 256 && 0 <= index < 256 && base + index <= 255 ==> -255 <= a <= 0
  {
    if base + index > 255 then base + index else base + index - 255
  }

  /** sta_zpx(ind): AX stored at the inverted-wrap address of ind + X. */
  function StaZpx(m: Machine, ind: int): (r: Exec<()>)
    ensures r.Ok? <==> InRange(m.heap, InvertedWrap(ind, m.X))
    ensures r.Raised? ==> r.m == m
    ensures r.Ok? ==>
              && r.m == m.(heap := r.m.heap, offset := m.offset + 1)
              && Stored(m.heap, r.m.heap, InvertedWrap(ind, m.X), m.AX)
  {
    StoreAt(m, InvertedWrap(ind, m.X), m.AX, 1)
  }

  /** sta_abs(addr): AX stored at addr, two operand bytes. */
  function StaAbs(m: Machine, addr: int): (r: Exec<()>)
    ensures r.Ok? <==> InRange(m.heap, addr)
    ensures r.Raised? ==> r.m == m
    ensures r.Ok? ==> r.m == m.(heap := r.m.heap, offset := m.offset + 2) && Stored(m.heap, r.m.heap, addr, m.AX)
  {
    StoreAt(m, addr, m.AX, 2)
  }

  /** sta_absy(addr): AX stored at addr + Y, two operand bytes. */
  function StaAbsY(m: Machine, addr: int): (r: Exec<()>)
    ensures r.Ok? <==> InRange(m.heap, addr + m.Y)
    ensures r.Raised? ==> r.m == m
    ensures r.Ok? ==> r.m == m.(heap := r.m.heap, offset := m.offset + 2) && Stored(m.heap, r.m.heap, addr + m.Y, m.AX)
  {
    StoreAt(m, addr + m.Y, m.AX, 2)
  }

  /**
   * sta_indx(ind): the pointer cell is the inverted-wrap address of ind + X;
   * that cell is the high byte and the next one the low byte of the target.
   */
  function StaIndX(m: Machine, ind: int): (r: Exec<()>)
    ensures var p := InvertedWrap(ind, m.X);
            r.Ok? <==> InRange(m.heap, p) && InRange(m.heap, p + 1) &&
                       InRange(m.heap, Hcat(Cell(m, p), Cell(m, p + 1)))
    ensures r.Raised? ==> r.m == m
    ensures r.Ok? ==>
              var p := InvertedWrap(ind, m.X);
              && r.m == m.(heap := r.m.heap, offset := m.offset + 1)
              && Stored(m.heap, r.m.heap, Hcat(Cell(m, p), Cell(m, p + 1)), m.AX)
  {
    var p := InvertedWrap(ind, m.X);
    if !InRange(m.heap, p) || !InRange(m.heap, p + 1) then Raised(m)
    else StoreAt(m, Hcat(Cell(m, p), Cell(m, p + 1)), m.AX, 1)
  }

  /**
   * sta_indy(ind): the cell after ind is the high byte and ind the low byte
   * of a base address; AX is stored at that base plus Y.
   */
  function StaIndY(m: Machine, ind: int): (r: Exec<()>)
    ensures r.Ok? <==> InRange(m.heap, ind + 1) && InRange(m.heap, ind) &&
                       InRange(m.heap, Hcat(Cell(m, ind + 1), Cell(m, ind)) + m.Y)
    ensures r.Raised? ==> r.m == m
    ensures r.Ok? ==>
              && r.m == m.(heap := r.m.heap, offset := m.offset + 1)
              && Stored(m.heap, r.m.heap, Hcat(Cell(m, ind + 1), Cell(m, ind)) + m.Y, m.AX)
  {
    if !InRange(m.heap, ind + 1) || !InRange(m.heap, ind) then Raised(m)
    else StoreAt(m, Hcat(Cell(m, ind + 1), Cell(m, ind)) + m.Y, m.AX, 1)
  }

  /** stx_abs(addr): X stored at addr, two operand bytes. */
  function StxAbs(m: Machine, addr: int): (r: Exec<()>)
    ensures r.Ok? <==> InRange(m.heap, addr)
    ensures r.Raised? ==> r.m == m
    ensures r.Ok? ==> r.m == m.(heap := r.m.heap, offset := m.offset + 2) && Stored(m.heap, r.m.heap, addr, m.X)
  {
    StoreAt(m, addr, m.X, 2)
  }

  /** sty_abs(addr): Y stored at addr, two operand bytes. */
  function StyAbs(m: Machine, addr: int): (r: Exec<()>)
    ensures r.Ok? <==> InRange(m.heap, addr)
    ensures r.Raised? ==> r.m == m
    ensures r.Ok? ==> r.m == m.(heap := r.m.heap, offset := m.offset + 2) && Stored(m.heap, r.m.heap, addr, m.Y)
  {
    StoreAt(m, addr, m.Y, 2)
  }

  // ---------------------------------------------------------------- transfers

  /** tax(): X takes AX; Zero and Negative follow it. */
  function Tax(m: Machine): (r: Machine)
    ensures r == m.(X := m.AX, flags := r.flags)
    ensures CheckBit(r.flags, ZERO) <==> m.AX == 0
    ensures CheckBit(r.flags, NEGATIVE) <==> CheckBit(m.AX, 7)
    ensures SameBitsExcept(r.flags, m.flags, {ZERO, NEGATIVE})
  {
    m.(X := m.AX, flags := Nz(m.flags, m.AX))
  }

  /** txa(): AX takes X; Zero and Negative follow it. */
  function Txa(m: Machine): (r: Machine)
    ensures r == m.(AX := m.X, flags := r.flags)
    ensures CheckBit(r.flags, ZERO) <==> m.X == 0
    ensures CheckBit(r.flags, NEGATIVE) <==> CheckBit(m.X, 7)
    ensures SameBitsExcept(r.flags, m.flags, {ZERO, NEGATIVE})
  {
    m.(AX := m.X, flags := Nz(m.flags, m.X))
  }

  // ---------------------------------------------------------------- increments

  /**
   * inc(val, addr): writes val + 1 modulo 256 at addr; Zero and Negative
   * follow val as it was before the increment.
   */
  function Inc(m: Machine, val: int, addr: int): (r: Exec<()>)
    ensures r.Ok? <==> InRange(m.heap, addr)
    ensures r.Raised? ==> r.m == m
    ensures r.Ok? ==>
              && r.m == m.(heap := r.m.heap, flags := r.m.flags)
              && Stored(m.heap, r.m.heap, addr, (val + 1) % 256)
              && (CheckBit(r.m.flags, ZERO) <==> val == 0)
              && (CheckBit(r.m.flags, NEGATIVE) <==> CheckBit(val, 7))
              && SameBitsExcept(r.m.flags, m.flags, {ZERO, NEGATIVE})
  {
    match Write(m, addr, Badd(val, 1).0)
    case None => Raised(m)
    case Some(m1) => Done(m1.(flags := Nz(m1.flags, val)))
  }

  /** inc_zp(addr): increments the cell at addr, one operand byte. */
  function IncZp(m: Machine, addr: int): (r: Exec<()>)
    ensures r.Ok? <==> InRange(m.heap, addr)
    ensures r.Raised? ==> r.m == m
    ensures r.Ok? ==>
              && r.m == m.(heap := r.m.heap, flags := r.m.flags, offset := m.offset + 1)
              && Stored(m.heap, r.m.heap, addr, (Cell(m, addr) + 1) % 256)
              && (CheckBit(r.m.flags, ZERO) <==> Cell(m, addr) == 0)
              && (CheckBit(r.m.flags, NEGATIVE) <==> CheckBit(Cell(m, addr), 7))
              && SameBitsExcept(r.m.flags, m.flags, {ZERO, NEGATIVE})
  {
    if !InRange(m.heap, addr) then Raised(m)
    else
      match Inc(m, Cell(m, addr), addr)
      case Raised(m1) => Raised(m1)
      case Ok(m1, _) => Done(m1.(offset := m1.offset + 1))
  }

  /** inx(): X becomes X + 1 modulo 256; Zero and Negative follow the new X. */
  function Inx(m: Machine): (r: Machine)
    ensures r == m.(X := r.X, flags := r.flags)
    ensures 0 <= r.X < 256 && r.X == (m.X + 1) % 256
    ensures CheckBit(r.flags, ZERO) <==> r.X == 0
    ensures CheckBit(r.flags, NEGATIVE) <==> CheckBit(r.X, 7)
    ensures SameBitsExcept(r.flags, m.flags, {ZERO, NEGATIVE})
  {
    var x := Badd(m.X, 1).0;
    m.(X := x, flags := Nz(m.flags, x))
  }

  /** iny(): Y becomes Y + 1 modulo 256; Zero and Negative follow the new Y. */
  function Iny(m: Machine): (r: Machine)
    ensures r == m.(Y := r.Y, flags := r.flags)
    ensures 0 <= r.Y < 256 && r.Y == (m.Y + 1) % 256
    ensures CheckBit(r.flags, ZERO) <==> r.Y == 0
    ensures CheckBit(r.flags, NEGATIVE) <==> CheckBit(r.Y, 7)
    ensures SameBitsExcept(r.flags, m.flags, {ZERO, NEGATIVE})
  {
    var y := Badd(m.Y, 1).0;
    m.(Y := y, flags := Nz(m.flags, y))
  }

  /** What the decrements leave: one less, or 255 when that would go below 0. */
  function Decremented(v: int): (r: int)
    ensures 0 <= v < 256 ==> 0 <= r < 256 && r == (v - 1) % 256
    ensures v - 1 >= 0 ==> r == v - 1
  {
    if v - 1 < 0 then 255 else v - 1
  }

  /**
   * dec_zp(addr) (bytes = 1) and dec_abs(addr) (bytes = 2): decrements the
   * cell at addr, flooring at 255 below zero; no flag changes.
   */
  function DecMem(m: Machine, addr: int, bytes: nat): (r: Exec<()>)
    ensures r.Ok? <==> InRange(m.heap, addr)
    ensures r.Raised? ==> r.m == m
    ensures r.Ok? ==>
              && r.m == m.(heap := r.m.heap, offset := m.offset + bytes)
              && Stored(m.heap, r.m.heap, addr, Decremented(Cell(m, addr)))
  {
    if !InRange(m.heap, addr) then Raised(m)
    else StoreAt(m, addr, Decremented(Cell(m, addr)), bytes)
  }

  /** dex(): X decremented as the cells are; Zero and Negative follow the new X. */
  function Dex(m: Machine): (r: Machine)
    ensures r == m.(X := r.X, flags := r.flags)
    ensures 0 <= m.X < 256 ==> r.X == (m.X - 1) % 256
    ensures m.X >= 1 ==> r.X == m.X - 1
    ensures CheckBit(r.flags, ZERO) <==> r.X == 0
    ensures CheckBit(r.flags, NEGATIVE) <==> CheckBit(r.X, 7)
    ensures SameBitsExcept(r.flags, m.flags, {ZERO, NEGATIVE})
  {
    var x := Decremented(m.X);
    m.(X := x, flags := Nz(m.flags, x))
  }

  // ---------------------------------------------------------------- logic

  /** and_im(val): AX keeps the bits set in both AX and val; one operand byte. */
  function AndIm(m: Machine, val: int): (r: Machine)
    ensures r == m.(AX := r.AX, flags := r.flags, offset := m.offset + 1)
    ensures forall k: nat :: CheckBit(r.AX, k) == (CheckBit(m.AX, k) && CheckBit(val, k))
    ensures CheckBit(r.flags, ZERO) <==> r.AX == 0
    ensures CheckBit(r.flags, NEGATIVE) <==> CheckBit(m.AX, 7) && CheckBit(val, 7)
    ensures SameBitsExcept(r.flags, m.flags, {ZERO, NEGATIVE})
  {
    var a := BitAnd(m.AX, val);
    BitAndEveryBit(m.AX, val);
    m.(AX := a, flags := Nz(m.flags, a), offset := m.offset + 1)
  }

  /**
   * bit_zp(addr) (zeroBit = ZERO, one operand byte) and bit_abs(addr)
   * (zeroBit = INTERRUPT, two bytes): `zeroBit` is set exactly when AX & cell
   * is 0, and Overflow and Negative copy bits 6 and 7 of the cell.
   */
  function BitTest(m: Machine, addr: int, zeroBit: nat, bytes: nat): (r: Exec<()>)
    requires zeroBit < OVERFLOW
    ensures r.Ok? <==> InRange(m.heap, addr)
    ensures r.Raised? ==> r.m == m
    ensures r.Ok? ==>
              var val := Cell(m, addr);
              && r.m == m.(flags := r.m.flags, offset := m.offset + bytes)
              && (CheckBit(r.m.flags, zeroBit) <==> BitAnd(m.AX, val) == 0)
              && CheckBit(r.m.flags, OVERFLOW) == CheckBit(val, 6)
              && CheckBit(r.m.flags, NEGATIVE) == CheckBit(val, 7)
              && SameBitsExcept(r.m.flags, m.flags, {zeroBit, OVERFLOW, NEGATIVE})
  {
    if !InRange(m.heap, addr) then Raised(m)
    else
      var val := Cell(m, addr);
      var f := SetBit(m.flags, zeroBit, BitAnd(m.AX, val) == 0);
      var f := SetBit(f, OVERFLOW, CheckBit(val, 6));
      var f := SetBit(f, NEGATIVE, CheckBit(val, 7));
      Done(m.(flags := f, offset := m.offset + bytes))
  }

  /** bit_zp(addr): the Zero bit reports AX & cell == 0. */
  function BitZp(m: Machine, addr: int): (r: Exec<()>)
    ensures r.Ok? <==> InRange(m.heap, addr)
    ensures r.Raised? ==> r.m == m
    ensures r.Ok? ==>
              var val := Cell(m, addr);
              && r.m == m.(flags := r.m.flags, offset := m.offset + 1)
              && (CheckBit(r.m.flags, ZERO) <==> BitAnd(m.AX, val) == 0)
              && CheckBit(r.m.flags, OVERFLOW) == CheckBit(val, 6)
              && CheckBit(r.m.flags, NEGATIVE) == CheckBit(val, 7)
              && SameBitsExcept(r.m.flags, m.flags, {ZERO, OVERFLOW, NEGATIVE})
  {
    BitTest(m, addr, ZERO, 1)
  }

  /** bit_abs(addr): as written, bit 2 (Interrupt) reports AX & cell == 0 and Zero is kept. */
  function BitAbs(m: Machine, addr: int): (r: Exec<()>)
    ensures r.Ok? <==> InRange(m.heap, addr)
    ensures r.Raised? ==> r.m == m
    ensures r.Ok? ==>
              var val := Cell(m, addr);
              && r.m == m.(flags := r.m.flags, offset := m.offset + 2)
              && (CheckBit(r.m.flags, INTERRUPT) <==> BitAnd(m.AX, val) == 0)
              && CheckBit(r.m.flags, ZERO) == CheckBit(m.flags, ZERO)
              && CheckBit(r.m.flags, OVERFLOW) == CheckBit(val, 6)
              && CheckBit(r.m.flags, NEGATIVE) == CheckBit(val, 7)
              && SameBitsExcept(r.m.flags, m.flags, {INTERRUPT, OVERFLOW, NEGATIVE})
  {
    BitTest(m, addr, INTERRUPT, 2)
  }

  // ---------------------------------------------------------------- interrupts

  /**
   * brk(): pushes PC at SP and then the flags at SP - 1, lowers SP by 2 and
   * sets the Break bit; PC is left where it is.
   */
  function Brk(m: Machine): (r: Exec<()>)
    ensures r.Ok? <==> InRange(m.heap, m.SP) && InRange(m.heap, m.SP - 1)
    ensures !InRange(m.heap, m.SP) ==> r == Raised(m)
    ensures InRange(m.heap, m.SP) && !InRange(m.heap, m.SP - 1) ==>
              && r.Raised?
              && r.m == m.(SP := m.SP - 1, heap := r.m.heap)
              && Stored(m.heap, r.m.heap, m.SP, m.PC)
    ensures r.Ok? ==>
              && r.m == m.(SP := m.SP - 2, flags := r.m.flags, heap := r.m.heap)
              && |r.m.heap| == |m.heap|
              && Read(r.m, m.SP - 1) == Some(m.flags)
              && (Slot(m.heap, m.SP) != Slot(m.heap, m.SP - 1) ==> Read(r.m, m.SP) == Some(m.PC))
              && (forall j ::
                    (InRange(m.heap, j) && Slot(m.heap, j) != Slot(m.heap, m.SP) && Slot(m.heap, j) != Slot(m.heap, m.SP - 1))
                    ==> Read(r.m, j) == Read(m, j))
              && CheckBit(r.m.flags, BREAK)
              && SameBitsExcept(r.m.flags, m.flags, {BREAK})
  {
    match Write(m, m.SP, m.PC)
    case None => Raised(m)
    case Some(m1) =>
      var m1 := m1.(SP := m1.SP - 1);
      match Write(m1, m1.SP, m1.flags)
      case None => Raised(m1)
      case Some(m2) => Done(m2.(SP := m2.SP - 1, flags := SetBit(m2.flags, BREAK, true)))
  }

  // ---------------------------------------------------------------- branches

  /**
   * What a relative branch does with its displacement `disp`: when taken, PC
   * moves (forward by disp + 1 for disp below 0x80, back by decomp(disp)
   * otherwise) and `offset` stays; when not taken, only `offset` grows by the
   * one operand byte.
   */
  ghost predicate Branched(m: Machine, r: Machine, taken: bool, disp: int) {
    if taken then
      && r == m.(PC := r.PC)
      && (0 <= disp < 0x80 ==> r.PC == m.PC + disp + 1)
      && (0x80 <= disp < 0x100 ==> r.PC == m.PC + disp - 256)
    else
      r == m.(offset := m.offset + 1)
  }

  /** The body the five branch instructions share, `cond` being their test. */
  function Branch(m: Machine, cond: bool, disp: int): (r: Machine)
    ensures Branched(m, r, cond, disp)
  {
    if cond then
      if CheckBit(disp, 7) then m.(PC := m.PC - Decomp(disp))
      else m.(PC := m.PC + (disp + 1))
    else m.(offset := m.offset + 1)
  }

  /** bcc(disp): taken when Carry is clear. */
  function Bcc(m: Machine, disp: int): (r: Machine)
    ensures Branched(m, r, !CheckBit(m.flags, CARRY), disp)
  {
    Branch(m, !CheckBit(m.flags, CARRY), disp)
  }

  /** bcs(disp): taken when Carry is set. */
  function Bcs(m: Machine, disp: int): (r: Machine)
    ensures Branched(m, r, CheckBit(m.flags, CARRY), disp)
  {
    Branch(m, CheckBit(m.flags, CARRY), disp)
  }

  /** beq(disp): taken when Zero is set. */
  function Beq(m: Machine, disp: int): (r: Machine)
    ensures Branched(m, r, CheckBit(m.flags, ZERO), disp)
  {
    Branch(m, CheckBit(m.flags, ZERO), disp)
  }

  /** bne(disp): taken when Zero is clear. */
  function Bne(m: Machine, disp: int): (r: Machine)
    ensures Branched(m, r, !CheckBit(m.flags, ZERO), disp)
  {
    Branch(m, !CheckBit(m.flags, ZERO), disp)
  }

  /** bpl(disp): taken when Negative is clear. */
  function Bpl(m: Machine, disp: int): (r: Machine)
    ensures Branched(m, r, !CheckBit(m.flags, NEGATIVE), disp)
  {
    Branch(m, !CheckBit(m.flags, NEGATIVE), disp)
  }

  // ---------------------------------------------------------------- compares

  /**
   * cmp, cpx and cpy on register value `reg`: Carry is set exactly when
   * reg >= val, Zero exactly when they are equal, and Negative copies bit 7
   * of (reg - val) modulo 256. Only the flags change.
   */
  function Compare(flags: int, reg: int, val: int): (r: int)
    ensures CheckBit(r, CARRY) <==> reg >= val
    ensures CheckBit(r, ZERO) <==> reg == val
    ensures CheckBit(r, NEGATIVE) <==> CheckBit((reg - val) % 256, 7)
    ensures SameBitsExcept(r, flags, {CARRY, ZERO, NEGATIVE})
  {
    var result := Bsub(reg, val).0;
    var f := SetBit(flags, CARRY, reg >= val);
    var f := SetBit(f, ZERO, reg == val);
    SetBit(f, NEGATIVE, CheckBit(result, 7))
  }

  /** cmp_im(val): compares AX with val, one operand byte. */
  function CmpIm(m: Machine, val: int): (r: Machine)
    ensures r == m.(flags := r.flags, offset := m.offset + 1)
    ensures CheckBit(r.flags, CARRY) <==> m.AX >= val
    ensures CheckBit(r.flags, ZERO) <==> m.AX == val
    ensures CheckBit(r.flags, NEGATIVE) <==> CheckBit((m.AX - val) % 256, 7)
    ensures SameBitsExcept(r.flags, m.flags, {CARRY, ZERO, NEGATIVE})
  {
    m.(flags := Compare(m.flags, m.AX, val), offset := m.offset + 1)
  }

  /** cmp_zp(addr): compares AX with the cell at addr, one operand byte. */
  function CmpZp(m: Machine, addr: int): (r: Exec<()>)
    ensures r.Ok? <==> InRange(m.heap, addr)
    ensures r.Raised? ==> r.m == m
    ensures r.Ok? ==> r.m == m.(flags := Compare(m.flags, m.AX, Cell(m, addr)), offset := m.offset + 1)
  {
    if !InRange(m.heap, addr) then Raised(m) else Done(CmpIm(m, Cell(m, addr)))
  }

  /** cpx_im(val): compares X with val, one operand byte. */
  function CpxIm(m: Machine, val: int): (r: Machine)
    ensures r == m.(flags := r.flags, offset := m.offset + 1)
    ensures CheckBit(r.flags, CARRY) <==> m.X >= val
    ensures CheckBit(r.flags, ZERO) <==> m.X == val
    ensures CheckBit(r.flags, NEGATIVE) <==> CheckBit((m.X - val) % 256, 7)
    ensures SameBitsExcept(r.flags, m.flags, {CARRY, ZERO, NEGATIVE})
  {
    m.(flags := Compare(m.flags, m.X, val), offset := m.offset + 1)
  }

  /** cpx_zp(addr): compares X with the cell at addr, one operand byte. */
  function CpxZp(m: Machine, addr: int): (r: Exec<()>)
    ensures r.Ok? <==> InRange(m.heap, addr)
    ensures r.Raised? ==> r.m == m
    ensures r.Ok? ==> r.m == m.(flags := Compare(m.flags, m.X, Cell(m, addr)), offset := m.offset + 1)
  {
    if !InRange(m.heap, addr) then Raised(m) else Done(CpxIm(m, Cell(m, addr)))
  }

  /** cpy_im(val): compares Y with val, one operand byte. */
  function CpyIm(m: Machine, val: int): (r: Machine)
    ensures r == m.(flags := r.flags, offset := m.offset + 1)
    ensures CheckBit(r.flags, CARRY) <==> m.Y >= val
    ensures CheckBit(r.flags, ZERO) <==> m.Y == val
    ensures CheckBit(r.flags, NEGATIVE) <==> CheckBit((m.Y - val) % 256, 7)
    ensures SameBitsExcept(r.flags, m.flags, {CARRY, ZERO, NEGATIVE})
  {
    m.(flags := Compare(m.flags, m.Y, val), offset := m.offset + 1)
  }

  // ---------------------------------------------------------------- jumps

  /** jmp_abs(addr): PC is set one short of addr, since the tick adds 1. */
  function JmpAbs(m: Machine, addr: int): (r: Machine)
    ensures r == m.(PC := addr - 1)
  {
    m.(PC := addr - 1)
  }

  /**
   * jmp_ind(ind): PC is set to the word whose high byte is the cell at ind
   * and whose low byte is the next cell, with no allowance for the tick's + 1.
   */
  function JmpInd(m: Machine, ind: int): (r: Exec<()>)
    ensures r.Ok? <==> InRange(m.heap, ind) && InRange(m.heap, ind + 1)
    ensures r.Raised? ==> r.m == m
    ensures r.Ok? ==> r.m == m.(PC := Cell(m, ind) * 256 + Cell(m, ind + 1))
  {
    if !InRange(m.heap, ind) || !InRange(m.heap, ind + 1) then Raised(m)
    else Done(m.(PC := Hcat(Cell(m, ind), Cell(m, ind + 1))))
  }

  /**
   * jsr_abs(addr): pushes PC >> 8 at SP - 1 and (PC + 2) & 0xFF at SP, lowers
   * SP by 2 and sets PC one short of addr.
   */
  function Jsr(m: Machine, addr: int): (r: Exec<()>)
    ensures r.Ok? <==> InRange(m.heap, m.SP - 1) && InRange(m.heap, m.SP)
    ensures r.Raised? ==> r.m == m.(heap := r.m.heap)
    ensures !InRange(m.heap, m.SP - 1) ==> r == Raised(m)
    ensures InRange(m.heap, m.SP - 1) && !InRange(m.heap, m.SP) ==>
              r.Raised? && Stored(m.heap, r.m.heap, m.SP - 1, m.PC / 256)
    ensures r.Ok? ==>
              && r.m == m.(SP := m.SP - 2, PC := addr - 1, heap := r.m.heap)
              && |r.m.heap| == |m.heap|
              && Read(r.m, m.SP) == Some((m.PC + 2) % 256)
              && (Slot(m.heap, m.SP - 1) != Slot(m.heap, m.SP) ==> Read(r.m, m.SP - 1) == Some(m.PC / 256))
              && (forall j :: (InRange(m.heap, j) && Slot(m.heap, j) != Slot(m.heap, m.SP) &&
                                Slot(m.heap, j) != Slot(m.heap, m.SP - 1)) ==> Read(r.m, j) == Read(m, j))
  {
    match Write(m, m.SP - 1, m.PC / 256)
    case None => Raised(m)
    case Some(m1) =>
      match Write(m1, m1.SP, (m1.PC + 2) % 256)
      case None => Raised(m1)
      case Some(m2) => Done(m2.(SP := m2.SP - 2, PC := addr - 1))
  }

  /**
   * rts(): raises SP by 2, then pops the cell at SP - 1 as the high byte and
   * the cell at SP as the low byte of the new PC, clearing both.
   */
  function Rts(m: Machine): (r: Exec<()>)
    ensures r.Ok? <==> InRange(m.heap, m.SP + 1) && InRange(m.heap, m.SP + 2)
    ensures r.Raised? ==> r.m == m.(SP := m.SP + 2, heap := r.m.heap)
    ensures !InRange(m.heap, m.SP + 1) ==> r == Raised(m.(SP := m.SP + 2))
    ensures InRange(m.heap, m.SP + 1) && !InRange(m.heap, m.SP + 2) ==>
              r.Raised? && Stored(m.heap, r.m.heap, m.SP + 1, 0)
    ensures r.Ok? ==>
              && r.m == m.(SP := m.SP + 2, PC := r.m.PC, heap := r.m.heap)
              && |r.m.heap| == |m.heap|
              && Read(r.m, m.SP + 1) == Some(0) && Read(r.m, m.SP + 2) == Some(0)
              && (Slot(m.heap, m.SP + 1) != Slot(m.heap, m.SP + 2) ==>
                    r.m.PC == Cell(m, m.SP + 1) * 256 + Cell(m, m.SP + 2))
              && (forall j :: (InRange(m.heap, j) && Slot(m.heap, j) != Slot(m.heap, m.SP + 1) &&
                                Slot(m.heap, j) != Slot(m.heap, m.SP + 2)) ==> Read(r.m, j) == Read(m, j))
  {
    var m1 := m.(SP := m.SP + 2);
    match Pop(m1, m1.SP - 1)
    case None => Raised(m1)
    case Some((hi, m2)) =>
      match Pop(m2, m2.SP)
      case None => Raised(m2)
      case Some((lo, m3)) => Done(m3.(PC := Hcat(hi, lo)))
  }

  // ---------------------------------------------------------------- stack

  /** pha(): pushes AX at SP and lowers SP by 1. */
  function Pha(m: Machine): (r: Exec<()>)
    ensures r.Ok? <==> InRange(m.heap, m.SP)
    ensures r.Raised? ==> r.m == m
    ensures r.Ok? ==> r.m == m.(SP := m.SP - 1, heap := r.m.heap) && Stored(m.heap, r.m.heap, m.SP, m.AX)
  {
    match Write(m, m.SP, m.AX)
    case None => Raised(m)
    case Some(m1) => Done(m1.(SP := m1.SP - 1))
  }

  /** pla(): raises SP by 1 and pops that cell into AX, leaving it 0; no flags change. */
  function Pla(m: Machine): (r: Exec<()>)
    ensures r.Ok? <==> InRange(m.heap, m.SP + 1)
    ensures r.Raised? ==> r.m == m.(SP := m.SP + 1)
    ensures r.Ok? ==>
              && r.m == m.(SP := m.SP + 1, AX := Cell(m, m.SP + 1), heap := r.m.heap)
              && Stored(m.heap, r.m.heap, m.SP + 1, 0)
  {
    var m1 := m.(SP := m.SP + 1);
    match Pop(m1, m1.SP)
    case None => Raised(m1)
    case Some((val, m2)) => Done(m2.(AX := val))
  }
}
