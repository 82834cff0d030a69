/**
 * The CPU object itself: registers and flags as fields that its methods
 * update statement by statement, and the RAM object it reads and writes.
 * Every method is specified by the function of the same name over
 * `Machine` values: the state after the call, read back with `Snapshot()`,
 * is that function of the state before it. A method that can raise
 * IndexError reports it with `ok == false`, leaving the state it had reached
 * at that point; decode_instruction turns that into the End-of-ROM path.
 */
module Cpu {
  import opened Lists
  import opened Bits
  import opened Alu
  import opened MachineState
  import opened Addressing
  import opened Instructions
  import opened Dispatch
  import opened Ram

  class CPU {
    var AX: int
    var X: int
    var Y: int
    var SP: int
    var PC: int
    var flags: int
    var offset: int
    var running: bool
    var lookupTable: seq<Option<Handler>>
    const ram: RAM

    /** The RAM keeps the length it was created with. */
    ghost predicate Valid()
      reads this, ram
    {
      ram.Valid()
    }

    /** The registers and the heap as one value. */
    ghost function Snapshot(): Machine
      reads this, ram
    {
      Machine(AX, X, Y, SP, PC, flags, offset, ram.heap)
    }

    /** The outcome of a method that may raise IndexError, as a value. */
    ghost function Outcome(ok: bool): Exec<()>
      reads this, ram
    {
      if ok then Ok(Snapshot(), ()) else Raised(Snapshot())
    }

    /** The outcome of an addressing mode, with the value it returned. */
    ghost function Yield(ok: bool, v: int): Exec<int>
      reads this, ram
    {
      if ok then Ok(Snapshot(), v) else Raised(Snapshot())
    }

    /**
     * A CPU with AX, X, Y and PC zero, SP 0x1FF, only bit 5 of the flags
     * set, no pending offset, not running and an empty lookup table; it uses
     * the RAM it is given, or a new zeroed 64 KiB one.
     */
    constructor (ram: RAM?)
      requires ram != null ==> ram.Valid()
      ensures Valid()
      ensures ram != null ==> this.ram == ram && this.ram.heap == old(ram.heap)
      ensures ram == null ==> fresh(this.ram) && this.ram.heap == Zeros(0x1_0000)
      ensures Snapshot() == Machine(0, 0, 0, 0x1FF, 0, 0x20, 0, this.ram.heap)
      ensures !running && lookupTable == []
    {
      if ram == null {
        this.ram := new RAM(8, 0x1_0000);
      } else {
        this.ram := ram;
      }
      AX := 0;
      X := 0;
      Y := 0;
      SP := 0x1FF;
      PC := 0;
      flags := 0x20;
      running := false;
      offset := 0;
      lookupTable := [];
    }

    // ------------------------------------------------------------ processor state checks

    method ZeroCheck(val: int)
      modifies this
      ensures Snapshot() == old(Snapshot()).(flags := Alu.ZeroCheck(old(flags), val))
      ensures running == old(running) && lookupTable == old(lookupTable)
    {
      if val == 0 {
        flags := SetBit(flags, ZERO, true);
      } else {
        flags := SetBit(flags, ZERO, false);
      }
    }

    method NegativeCheck(val: int)
      modifies this
      ensures Snapshot() == old(Snapshot()).(flags := Alu.NegativeCheck(old(flags), val))
      ensures running == old(running) && lookupTable == old(lookupTable)
    {
      if CheckBit(val, 7) {
        flags := SetBit(flags, NEGATIVE, true);
      } else {
        flags := SetBit(flags, NEGATIVE, false);
      }
    }

    method CarryCheck(val: int)
      modifies this
      ensures Snapshot() == old(Snapshot()).(flags := Alu.CarryCheck(old(flags), val))
      ensures running == old(running) && lookupTable == old(lookupTable)
    {
      if val > 255 {
        flags := SetBit(flags, CARRY, true);
      } else {
        flags := SetBit(flags, CARRY, false);
      }
    }

    method OverflowCheck(val1: int, val2: int)
      modifies this
      ensures Snapshot() == old(Snapshot()).(flags := Alu.OverflowCheck(old(flags), val1, val2))
      ensures running == old(running) && lookupTable == old(lookupTable)
    {
      var sum := val1 + val2;
      if CheckBit(val1, 7) && CheckBit(val2, 7) && !CheckBit(sum, 7) {
        flags := SetBit(flags, OVERFLOW, true);
      } else if !CheckBit(val1, 7) && !CheckBit(val2, 7) && CheckBit(sum, 7) {
        flags := SetBit(flags, OVERFLOW, true);
      } else {
        flags := SetBit(flags, OVERFLOW, false);
      }
    }

    // ------------------------------------------------------------ addressing modes

    method Implied()
      modifies this
      ensures Snapshot() == Addressing.Implied(old(Snapshot()))
      ensures running == old(running) && lookupTable == old(lookupTable)
    {
      offset := offset + 0;
    }

    method Immediate() returns (ok: bool, val: int)
      modifies this
      ensures Yield(ok, val) == Addressing.Immediate(old(Snapshot()))
      ensures running == old(running) && lookupTable == old(lookupTable)
    {
      offset := offset + 1;
      var v := ram.Read(PC + 1);
      if v.None? { return false, 0; }
      return true, v.value;
    }

    method ZeroPage() returns (ok: bool, val: int)
      modifies this
      ensures Yield(ok, val) == Addressing.ZeroPage(old(Snapshot()))
      ensures running == old(running) && lookupTable == old(lookupTable)
    {
      offset := offset + 1;
      var v := ram.Read(PC + 1);
      if v.None? { return false, 0; }
      return true, v.value;
    }

    method ZeroPageX() returns (ok: bool, val: int)
      modifies this
      ensures Yield(ok, val) == Addressing.ZeroPageX(old(Snapshot()))
      ensures running == old(running) && lookupTable == old(lookupTable)
    {
      var rel := ram.Read(PC + 1);
      if rel.None? { return false, 0; }
      var addr;
      if rel.value + X > 255 {
        addr := rel.value + X - 255;
      } else {
        addr := rel.value + X;
      }
      offset := offset + 1;
      var v := ram.Read(addr);
      if v.None? { return false, 0; }
      return true, v.value;
    }

    method ZeroPageY() returns (ok: bool, val: int)
      modifies this
      ensures Yield(ok, val) == Addressing.ZeroPageY(old(Snapshot()))
      ensures running == old(running) && lookupTable == old(lookupTable)
    {
      var rel := ram.Read(PC + 1);
      if rel.None? { return false, 0; }
      var addr;
      if rel.value + Y > 255 {
        addr := rel.value + Y - 255;
      } else {
        addr := rel.value + Y;
      }
      offset := offset + 1;
      var v := ram.Read(addr);
      if v.None? { return false, 0; }
      return true, v.value;
    }

    method Relative() returns (ok: bool, val: int)
      modifies this
      ensures Yield(ok, val) == Addressing.Relative(old(Snapshot()))
      ensures running == old(running) && lookupTable == old(lookupTable)
    {
      offset := offset + 1;
      var v := ram.Read(PC + 1);
      if v.None? { return false, 0; }
      return true, v.value;
    }

    /** The two operand bytes as hcat(read(PC + 2), read(PC + 1)). */
    method ReadWord() returns (ok: bool, word: int)
      ensures ok == OperandWord(Snapshot()).Some?
      ensures ok ==> word == OperandWord(Snapshot()).value
    {
      var hi := ram.Read(PC + 2);
      if hi.None? { return false, 0; }
      var lo := ram.Read(PC + 1);
      if lo.None? { return false, 0; }
      return true, Hcat(hi.value, lo.value);
    }

    method Absolute() returns (ok: bool, val: int)
      modifies this
      ensures Yield(ok, val) == Addressing.Absolute(old(Snapshot()))
      ensures running == old(running) && lookupTable == old(lookupTable)
    {
      var found, addr := ReadWord();
      if !found { return false, 0; }
      offset := offset + 2;
      var v := ram.Read(addr);
      if v.None? { return false, 0; }
      return true, v.value;
    }

    method AbsoluteX() returns (ok: bool, val: int)
      modifies this
      ensures Yield(ok, val) == Addressing.AbsoluteX(old(Snapshot()))
      ensures running == old(running) && lookupTable == old(lookupTable)
    {
      var found, word := ReadWord();
      if !found { return false, 0; }
      var addr := word + X;
      offset := offset + 2;
      var v := ram.Read(addr);
      if v.None? { return false, 0; }
      return true, v.value;
    }

    method AbsoluteY() returns (ok: bool, val: int)
      modifies this
      ensures Yield(ok, val) == Addressing.AbsoluteY(old(Snapshot()))
      ensures running == old(running) && lookupTable == old(lookupTable)
    {
      var found, word := ReadWord();
      if !found { return false, 0; }
      var addr := word + Y;
      offset := offset + 2;
      var v := ram.Read(addr);
      if v.None? { return false, 0; }
      return true, v.value;
    }

    method Indirect() returns (ok: bool, val: int)
      modifies this
      ensures Yield(ok, val) == Addressing.Indirect(old(Snapshot()))
      ensures running == old(running) && lookupTable == old(lookupTable)
    {
      var found, addr := ReadWord();
      if !found { return false, 0; }
      offset := offset + 2;
      var hi := ram.Read(addr);
      if hi.None? { return false, 0; }
      var lo := ram.Read(addr + 1);
      if lo.None? { return false, 0; }
      var v := ram.Read(Hcat(hi.value, lo.value));
      if v.None? { return false, 0; }
      return true, v.value;
    }

    method IndirectX() returns (ok: bool, val: int)
      modifies this
      ensures Yield(ok, val) == Addressing.IndirectX(old(Snapshot()))
      ensures running == old(running) && lookupTable == old(lookupTable)
    {
      var found, ind := ReadWord();
      if !found { return false, 0; }
      var rel;
      if ind + X > 255 {
        rel := ind + X - 255;
      } else {
        rel := ind + X;
      }
      var hi := ram.Read(rel);
      if hi.None? { return false, 0; }
      var lo := ram.Read(rel + 1);
      if lo.None? { return false, 0; }
      var addr := Hcat(hi.value, lo.value);
      offset := offset + 1;
      var v := ram.Read(addr);
      if v.None? { return false, 0; }
      return true, v.value;
    }

    method IndirectY() returns (ok: bool, val: int)
      modifies this
      ensures Yield(ok, val) == Addressing.IndirectY(old(Snapshot()))
      ensures running == old(running) && lookupTable == old(lookupTable)
    {
      var a := ram.Read(PC + 2);
      if a.None? { return false, 0; }
      var hi := ram.Read(a.value + 1);
      if hi.None? { return false, 0; }
      var b := ram.Read(PC + 1);
      if b.None? { return false, 0; }
      var lo := ram.Read(b.value);
      if lo.None? { return false, 0; }
      var addr := Hcat(hi.value, lo.value) + Y;
      offset := offset + 1;
      var v := ram.Read(addr);
      if v.None? { return false, 0; }
      return true, v.value;
    }

    /** The mode a table entry names. */
    method Operand(mode: Mode) returns (ok: bool, val: int)
      modifies this
      ensures Yield(ok, val) == Addressing.Operand(old(Snapshot()), mode)
      ensures running == old(running) && lookupTable == old(lookupTable)
    {
      match mode
      case ImmediateMode => ok, val := Immediate();
      case ZeroPageMode => ok, val := ZeroPage();
      case ZeroPageXMode => ok, val := ZeroPageX();
      case ZeroPageYMode => ok, val := ZeroPageY();
      case RelativeMode => ok, val := Relative();
      case AbsoluteMode => ok, val := Absolute();
      case AbsoluteXMode => ok, val := AbsoluteX();
      case AbsoluteYMode => ok, val := AbsoluteY();
      case IndirectMode => ok, val := Indirect();
      case IndirectXMode => ok, val := IndirectX();
      case IndirectYMode => ok, val := IndirectY();
    }

    // ------------------------------------------------------------ unk, nop, loads, shifts

    method Unk(opcode: int)
      modifies this
      ensures Snapshot() == Instructions.Unk(old(Snapshot()), opcode)
      ensures running == old(running) && lookupTable == old(lookupTable)
    {
      offset := offset + 0;
    }

    method Nop()
      modifies this
      ensures Snapshot() == Instructions.Nop(old(Snapshot()))
      ensures running == old(running) && lookupTable == old(lookupTable)
    {
      offset := offset + 0;
    }

    method Lda(val: int)
      modifies this
      ensures Snapshot() == Instructions.Lda(old(Snapshot()), val)
      ensures running == old(running) && lookupTable == old(lookupTable)
    {
      AX := val;
      ZeroCheck(val);
      NegativeCheck(val);
    }

    method Ldx(val: int)
      modifies this
      ensures Snapshot() == Instructions.Ldx(old(Snapshot()), val)
      ensures running == old(running) && lookupTable == old(lookupTable)
    {
      X := val;
      ZeroCheck(val);
      NegativeCheck(val);
    }

    method Ldy(val: int)
      modifies this
      ensures Snapshot() == Instructions.Ldy(old(Snapshot()), val)
      ensures running == old(running) && lookupTable == old(lookupTable)
    {
      Y := val;
      ZeroCheck(val);
      NegativeCheck(val);
    }

    method LsrAcc()
      modifies this
      ensures Snapshot() == Instructions.LsrAcc(old(Snapshot()))
      ensures running == old(running) && lookupTable == old(lookupTable)
    {
      flags := SetBit(flags, CARRY, CheckBit(AX, 0));
      AX := AX / 2;
    }

    /** lsr_zp(addr) and lsr_abs(addr), whose bodies are the same. */
    method LsrMem(addr: int) returns (ok: bool)
      requires Valid()
      modifies this, ram
      ensures Valid()
      ensures Outcome(ok) == Instructions.LsrMem(old(Snapshot()), addr)
      ensures running == old(running) && lookupTable == old(lookupTable)
    {
      var val := ram.Read(addr);
      if val.None? { return false; }
      flags := SetBit(flags, CARRY, CheckBit(val.value, 0));
      ok := ram.Write(addr, val.value / 2);
    }

    // ------------------------------------------------------------ arithmetic

    method Sbc(val: int)
      modifies this
      ensures Snapshot() == Instructions.Sbc(old(Snapshot()), val)
      ensures running == old(running) && lookupTable == old(lookupTable)
    {
      var first := Bsub(AX, val);
      var second := Bsub(first.0, CarryValue(flags));
      var result, carry := second.0, second.1;
      if carry {
        flags := SetBit(flags, CARRY, true);
      } else {
        flags := SetBit(flags, CARRY, false);
      }
      ZeroCheck(result);
      OverflowCheck(AX, val);
      NegativeCheck(result);
      AX := result;
    }

    method Sec()
      modifies this
      ensures Snapshot() == Instructions.Sec(old(Snapshot()))
      ensures running == old(running) && lookupTable == old(lookupTable)
    {
      flags := SetBit(flags, CARRY, true);
    }

    method Adc(val: int)
      modifies this
      ensures Snapshot() == Instructions.Adc(old(Snapshot()), val)
      ensures running == old(running) && lookupTable == old(lookupTable)
    {
      var sum := Badd(AX, val, CheckBit(flags, CARRY));
      var result, carry := sum.0, sum.1;
      if carry {
        flags := SetBit(flags, CARRY, true);
      } else {
        flags := SetBit(flags, CARRY, false);
      }
      ZeroCheck(result);
      OverflowCheck(AX, val);
      NegativeCheck(result);
      AX := result;
    }

    method AdcIm(val: int)
      modifies this
      ensures Snapshot() == Instructions.AdcIm(old(Snapshot()), val)
      ensures running == old(running) && lookupTable == old(lookupTable)
    {
      Adc(val);
      offset := offset + 1;
    }

    method AdcZp(addr: int) returns (ok: bool)
      modifies this
      ensures Outcome(ok) == Instructions.AdcZp(old(Snapshot()), addr)
      ensures running == old(running) && lookupTable == old(lookupTable)
    {
      var val := ram.Read(addr);
      if val.None? { return false; }
      Adc(val.value);
      offset := offset + 1;
      return true;
    }

    method Clc()
      modifies this
      ensures Snapshot() == Instructions.Clc(old(Snapshot()))
      ensures running == old(running) && lookupTable == old(lookupTable)
    {
      flags := SetBit(flags, CARRY, false);
    }

    // ------------------------------------------------------------ stores

    method StaZp(addr: int) returns (ok: bool)
      requires Valid()
      modifies this, ram
      ensures Valid()
      ensures Outcome(ok) == Instructions.StaZp(old(Snapshot()), addr)
      ensures running == old(running) && lookupTable == old(lookupTable)
    {
      ok := ram.Write(addr, AX);
      if !ok { return; }
      offset := offset + 1;
    }

    method StaZpx(ind: int) returns (ok: bool)
      requires Valid()
      modifies this, ram
      ensures Valid()
      ensures Outcome(ok) == Instructions.StaZpx(old(Snapshot()), ind)
      ensures running == old(running) && lookupTable == old(lookupTable)
    {
      var addr;
      if ind + X > 255 {
        addr := ind + X;
      } else {
        addr := ind + X - 255;
      }
      ok := ram.Write(addr, AX);
      if !ok { return; }
      offset := offset + 1;
    }

    method StaAbs(addr: int) returns (ok: bool)
      requires Valid()
      modifies this, ram
      ensures Valid()
      ensures Outcome(ok) == Instructions.StaAbs(old(Snapshot()), addr)
      ensures running == old(running) && lookupTable == old(lookupTable)
    {
      ok := ram.Write(addr, AX);
      if !ok { return; }
      offset := offset + 2;
    }

    method StaAbsY(addr: int) returns (ok: bool)
      requires Valid()
      modifies this, ram
      ensures Valid()
      ensures Outcome(ok) == Instructions.StaAbsY(old(Snapshot()), addr)
      ensures running == old(running) && lookupTable == old(lookupTable)
    {
      var target := addr + Y;
      ok := ram.Write(target, AX);
      if !ok { return; }
      offset := offset + 2;
    }

    method StaIndX(ind: int) returns (ok: bool)
      requires Valid()
      modifies this, ram
      ensures Valid()
      ensures Outcome(ok) == Instructions.StaIndX(old(Snapshot()), ind)
      ensures running == old(running) && lookupTable == old(lookupTable)
    {
      var rel;
      if ind + X > 255 {
        rel := ind + X;
      } else {
        rel := ind + X - 255;
      }
      var hi := ram.Read(rel);
      if hi.None? { return false; }
      var lo := ram.Read(rel + 1);
      if lo.None? { return false; }
      var addr := Hcat(hi.value, lo.value);
      ok := ram.Write(addr, AX);
      if !ok { return; }
      offset := offset + 1;
    }

    method StaIndY(ind: int) returns (ok: bool)
      requires Valid()
      modifies this, ram
      ensures Valid()
      ensures Outcome(ok) == Instructions.StaIndY(old(Snapshot()), ind)
      ensures running == old(running) && lookupTable == old(lookupTable)
    {
      var hi := ram.Read(ind + 1);
      if hi.None? { return false; }
      var lo := ram.Read(ind);
      if lo.None? { return false; }
      var addr := Hcat(hi.value, lo.value) + Y;
      ok := ram.Write(addr, AX);
      if !ok { return; }
      offset := offset + 1;
    }

    method StxAbs(addr: int) returns (ok: bool)
      requires Valid()
      modifies this, ram
      ensures Valid()
      ensures Outcome(ok) == Instructions.StxAbs(old(Snapshot()), addr)
      ensures running == old(running) && lookupTable == old(lookupTable)
    {
      ok := ram.Write(addr, X);
      if !ok { return; }
      offset := offset + 2;
    }

    method StyAbs(addr: int) returns (ok: bool)
      requires Valid()
      modifies this, ram
      ensures Valid()
      ensures Outcome(ok) == Instructions.StyAbs(old(Snapshot()), addr)
      ensures running == old(running) && lookupTable == old(lookupTable)
    {
      ok := ram.Write(addr, Y);
      if !ok { return; }
      offset := offset + 2;
    }

    // ------------------------------------------------------------ transfers, increments, decrements

    method Tax()
      modifies this
      ensures Snapshot() == Instructions.Tax(old(Snapshot()))
      ensures running == old(running) && lookupTable == old(lookupTable)
    {
      X := AX;
      ZeroCheck(X);
      NegativeCheck(X);
    }

    method Txa()
      modifies this
      ensures Snapshot() == Instructions.Txa(old(Snapshot()))
      ensures running == old(running) && lookupTable == old(lookupTable)
    {
      AX := X;
      ZeroCheck(AX);
      NegativeCheck(AX);
    }

    method Inc(val: int, addr: int) returns (ok: bool)
      requires Valid()
      modifies this, ram
      ensures Valid()
      ensures Outcome(ok) == Instructions.Inc(old(Snapshot()), val, addr)
      ensures running == old(running) && lookupTable == old(lookupTable)
    {
      ok := ram.Write(addr, Badd(val, 1).0);
      if !ok { return; }
      ZeroCheck(val);
      NegativeCheck(val);
    }

    method IncZp(addr: int) returns (ok: bool)
      requires Valid()
      modifies this, ram
      ensures Valid()
      ensures Outcome(ok) == Instructions.IncZp(old(Snapshot()), addr)
      ensures running == old(running) && lookupTable == old(lookupTable)
    {
      var val := ram.Read(addr);
      if val.None? { return false; }
      ok := Inc(val.value, addr);
      if !ok { return; }
      offset := offset + 1;
    }

    method Inx()
      modifies this
      ensures Snapshot() == Instructions.Inx(old(Snapshot()))
      ensures running == old(running) && lookupTable == old(lookupTable)
    {
      X := Badd(X, 1).0;
      ZeroCheck(X);
      NegativeCheck(X);
    }

    method Iny()
      modifies this
      ensures Snapshot() == Instructions.Iny(old(Snapshot()))
      ensures running == old(running) && lookupTable == old(lookupTable)
    {
      Y := Badd(Y, 1).0;
      ZeroCheck(Y);
      NegativeCheck(Y);
    }

    /** dec_zp(addr) with bytes = 1 and dec_abs(addr) with bytes = 2. */
    method DecMem(addr: int, bytes: nat) returns (ok: bool)
      requires Valid()
      modifies this, ram
      ensures Valid()
      ensures Outcome(ok) == Instructions.DecMem(old(Snapshot()), addr, bytes)
      ensures running == old(running) && lookupTable == old(lookupTable)
    {
      var cell := ram.Read(addr);
      if cell.None? { return false; }
      var val := cell.value - 1;
      if val < 0 {
        ok := ram.Write(addr, 255);
      } else {
        ok := ram.Write(addr, val);
      }
      if !ok { return; }
      offset := offset + bytes;
    }

    method Dex()
      modifies this
      ensures Snapshot() == Instructions.Dex(old(Snapshot()))
      ensures running == old(running) && lookupTable == old(lookupTable)
    {
      if X - 1 < 0 {
        X := 255;
      } else {
        X := X - 1;
      }
      ZeroCheck(X);
      NegativeCheck(X);
    }

    // ------------------------------------------------------------ logic

    method AndIm(val: int)
      modifies this
      ensures Snapshot() == Instructions.AndIm(old(Snapshot()), val)
      ensures running == old(running) && lookupTable == old(lookupTable)
    {
      AX := BitAnd(AX, val);
      ZeroCheck(AX);
      NegativeCheck(AX);
      offset := offset + 1;
    }

    /** bit_zp (zeroBit = ZERO, bytes = 1) and bit_abs (zeroBit = INTERRUPT, bytes = 2). */
    method BitTest(addr: int, zeroBit: nat, bytes: nat) returns (ok: bool)
      requires zeroBit < OVERFLOW
      modifies this
      ensures Outcome(ok) == Instructions.BitTest(old(Snapshot()), addr, zeroBit, bytes)
      ensures running == old(running) && lookupTable == old(lookupTable)
    {
      var val := ram.Read(addr);
      if val.None? { return false; }
      if BitAnd(AX, val.value) == 0 {
        flags := SetBit(flags, zeroBit, true);
      } else {
        flags := SetBit(flags, zeroBit, false);
      }
      flags := SetBit(flags, OVERFLOW, CheckBit(val.value, 6));
      flags := SetBit(flags, NEGATIVE, CheckBit(val.value, 7));
      offset := offset + bytes;
      return true;
    }

    method BitZp(addr: int) returns (ok: bool)
      modifies this
      ensures Outcome(ok) == Instructions.BitZp(old(Snapshot()), addr)
      ensures running == old(running) && lookupTable == old(lookupTable)
    {
      ok := BitTest(addr, ZERO, 1);
    }

    method BitAbs(addr: int) returns (ok: bool)
      modifies this
      ensures Outcome(ok) == Instructions.BitAbs(old(Snapshot()), addr)
      ensures running == old(running) && lookupTable == old(lookupTable)
    {
      ok := BitTest(addr, INTERRUPT, 2);
    }

    // ------------------------------------------------------------ interrupts and branches

    method Brk() returns (ok: bool)
      requires Valid()
      modifies this, ram
      ensures Valid()
      ensures Outcome(ok) == Instructions.Brk(old(Snapshot()))
      ensures running == old(running) && lookupTable == old(lookupTable)
    {
      ok := ram.Push(PC, SP);
      if !ok { return; }
      SP := SP - 1;
      ok := ram.Push(flags, SP);
      if !ok { return; }
      SP := SP - 1;
      flags := SetBit(flags, BREAK, true);
    }

    /** The body of the five branches, `cond` being the flag test. */
    method Branch(cond: bool, disp: int)
      modifies this
      ensures Snapshot() == Instructions.Branch(old(Snapshot()), cond, disp)
      ensures running == old(running) && lookupTable == old(lookupTable)
    {
      if cond {
        if CheckBit(disp, 7) {
          var num := Decomp(disp);
          PC := PC - num;
        } else {
          PC := PC + (disp + 1);
        }
      } else {
        offset := offset + 1;
      }
    }

    method Bcc(disp: int)
      modifies this
      ensures Snapshot() == Instructions.Bcc(old(Snapshot()), disp)
      ensures running == old(running) && lookupTable == old(lookupTable)
    {
      Branch(!CheckBit(flags, CARRY), disp);
    }

    method Bcs(disp: int)
      modifies this
      ensures Snapshot() == Instructions.Bcs(old(Snapshot()), disp)
      ensures running == old(running) && lookupTable == old(lookupTable)
    {
      Branch(CheckBit(flags, CARRY), disp);
    }

    method Beq(disp: int)
      modifies this
      ensures Snapshot() == Instructions.Beq(old(Snapshot()), disp)
      ensures running == old(running) && lookupTable == old(lookupTable)
    {
      Branch(CheckBit(flags, ZERO), disp);
    }

    method Bne(disp: int)
      modifies this
      ensures Snapshot() == Instructions.Bne(old(Snapshot()), disp)
      ensures running == old(running) && lookupTable == old(lookupTable)
    {
      Branch(!CheckBit(flags, ZERO), disp);
    }

    method Bpl(disp: int)
      modifies this
      ensures Snapshot() == Instructions.Bpl(old(Snapshot()), disp)
      ensures running == old(running) && lookupTable == old(lookupTable)
    {
      Branch(!CheckBit(flags, NEGATIVE), disp);
    }

    // ------------------------------------------------------------ compares

    method Cmp(val: int)
      modifies this
      ensures Snapshot() == old(Snapshot()).(flags := Compare(old(flags), old(AX), val))
      ensures running == old(running) && lookupTable == old(lookupTable)
    {
      var result := Bsub(AX, val).0;
      if AX >= val {
        flags := SetBit(flags, CARRY, true);
      } else {
        flags := SetBit(flags, CARRY, false);
      }
      if AX == val {
        flags := SetBit(flags, ZERO, true);
      } else {
        flags := SetBit(flags, ZERO, false);
      }
      flags := SetBit(flags, NEGATIVE, CheckBit(result, 7));
    }

    method CmpIm(val: int)
      modifies this
      ensures Snapshot() == Instructions.CmpIm(old(Snapshot()), val)
      ensures running == old(running) && lookupTable == old(lookupTable)
    {
      Cmp(val);
      offset := offset + 1;
    }

    method CmpZp(addr: int) returns (ok: bool)
      modifies this
      ensures Outcome(ok) == Instructions.CmpZp(old(Snapshot()), addr)
      ensures running == old(running) && lookupTable == old(lookupTable)
    {
      ghost var m := Snapshot();
      var val := ram.Read(addr);
      if val.None? { return false; }
      assert val.value == Cell(m, addr);
      Cmp(val.value);
      offset := offset + 1;
      return true;
    }

    method Cpx(val: int)
      modifies this
      ensures Snapshot() == old(Snapshot()).(flags := Compare(old(flags), old(X), val))
      ensures running == old(running) && lookupTable == old(lookupTable)
    {
      var result := Bsub(X, val).0;
      if X >= val {
        flags := SetBit(flags, CARRY, true);
      } else {
        flags := SetBit(flags, CARRY, false);
      }
      if X == val {
        flags := SetBit(flags, ZERO, true);
      } else {
        flags := SetBit(flags, ZERO, false);
      }
      flags := SetBit(flags, NEGATIVE, CheckBit(result, 7));
    }

    method CpxIm(val: int)
      modifies this
      ensures Snapshot() == Instructions.CpxIm(old(Snapshot()), val)
      ensures running == old(running) && lookupTable == old(lookupTable)
    {
      Cpx(val);
      offset := offset + 1;
    }

    method CpxZp(addr: int) returns (ok: bool)
      modifies this
      ensures Outcome(ok) == Instructions.CpxZp(old(Snapshot()), addr)
      ensures running == old(running) && lookupTable == old(lookupTable)
    {
      ghost var m := Snapshot();
      var val := ram.Read(addr);
      if val.None? { return false; }
      assert val.value == Cell(m, addr);
      Cpx(val.value);
      offset := offset + 1;
      return true;
    }

    method Cpy(val: int)
      modifies this
      ensures Snapshot() == old(Snapshot()).(flags := Compare(old(flags), old(Y), val))
      ensures running == old(running) && lookupTable == old(lookupTable)
    {
      var result := Bsub(Y, val).0;
      if Y >= val {
        flags := SetBit(flags, CARRY, true);
      } else {
        flags := SetBit(flags, CARRY, false);
      }
      if Y == val {
        flags := SetBit(flags, ZERO, true);
      } else {
        flags := SetBit(flags, ZERO, false);
      }
      flags := SetBit(flags, NEGATIVE, CheckBit(result, 7));
    }

    method CpyIm(val: int)
      modifies this
      ensures Snapshot() == Instructions.CpyIm(old(Snapshot()), val)
      ensures running == old(running) && lookupTable == old(lookupTable)
    {
      Cpy(val);
      offset := offset + 1;
    }

    // ------------------------------------------------------------ jumps, subroutines, stack

    method JmpAbs(addr: int)
      modifies this
      ensures Snapshot() == Instructions.JmpAbs(old(Snapshot()), addr)
      ensures running == old(running) && lookupTable == old(lookupTable)
    {
      PC := addr - 1;
    }

    method JmpInd(ind: int) returns (ok: bool)
      modifies this
      ensures Outcome(ok) == Instructions.JmpInd(old(Snapshot()), ind)
      ensures running == old(running) && lookupTable == old(lookupTable)
    {
      var hi := ram.Read(ind);
      if hi.None? { return false; }
      var lo := ram.Read(ind + 1);
      if lo.None? { return false; }
      PC := Hcat(hi.value, lo.value);
      return true;
    }

    method Jsr(addr: int) returns (ok: bool)
      requires Valid()
      modifies this, ram
      ensures Valid()
      ensures Outcome(ok) == Instructions.Jsr(old(Snapshot()), addr)
      ensures running == old(running) && lookupTable == old(lookupTable)
    {
      ok := ram.Push(PC / 256, SP - 1);
      if !ok { return; }
      ok := ram.Push((PC + 2) % 256, SP);
      if !ok { return; }
      SP := SP - 2;
      PC := addr - 1;
    }

    method Rts() returns (ok: bool)
      requires Valid()
      modifies this, ram
      ensures Valid()
      ensures Outcome(ok) == Instructions.Rts(old(Snapshot()))
      ensures running == old(running) && lookupTable == old(lookupTable)
    {
      SP := SP + 2;
      var hi := ram.Pop(SP - 1);
      if hi.None? { return false; }
      var lo := ram.Pop(SP);
      if lo.None? { return false; }
      PC := Hcat(hi.value, lo.value);
      return true;
    }

    method Pha() returns (ok: bool)
      requires Valid()
      modifies this, ram
      ensures Valid()
      ensures Outcome(ok) == Instructions.Pha(old(Snapshot()))
      ensures running == old(running) && lookupTable == old(lookupTable)
    {
      ok := ram.Push(AX, SP);
      if !ok { return; }
      SP := SP - 1;
    }

    method Pla() returns (ok: bool)
      requires Valid()
      modifies this, ram
      ensures Valid()
      ensures Outcome(ok) == Instructions.Pla(old(Snapshot()))
      ensures running == old(running) && lookupTable == old(lookupTable)
    {
      SP := SP + 1;
      var val := ram.Pop(SP);
      if val.None? { return false; }
      AX := val.value;
      return true;
    }

    // ------------------------------------------------------------ lookup table, decode, tick

    /** setup_lookup_table(): 256 empty entries, then the seventeen handlers. */
    method SetupLookupTable()
      modifies this
      ensures lookupTable == LookupTable()
      ensures Snapshot() == old(Snapshot()) && running == old(running)
    {
      lookupTable := seq(0x100, _ => None);
      lookupTable := lookupTable[0xEA := Some(NopImplied)];
      lookupTable := lookupTable[0xA9 := Some(Load(RegA, ImmediateMode))];
      lookupTable := lookupTable[0xA5 := Some(Load(RegA, ZeroPageMode))];
      lookupTable := lookupTable[0xB5 := Some(Load(RegA, ZeroPageXMode))];
      lookupTable := lookupTable[0xA1 := Some(Load(RegA, IndirectXMode))];
      lookupTable := lookupTable[0xB1 := Some(Load(RegA, IndirectYMode))];
      lookupTable := lookupTable[0xA2 := Some(Load(RegX, ImmediateMode))];
      lookupTable := lookupTable[0xA6 := Some(Load(RegX, ZeroPageMode))];
      lookupTable := lookupTable[0xA0 := Some(Load(RegY, ImmediateMode))];
      lookupTable := lookupTable[0x4A := Some(LsrAccumulator)];
      lookupTable := lookupTable[0x46 := Some(LsrZeroPage)];
      lookupTable := lookupTable[0x4E := Some(LsrAbsolute)];
      lookupTable := lookupTable[0xE9 := Some(SbcWith(ImmediateMode))];
      lookupTable := lookupTable[0xE5 := Some(SbcWith(ZeroPageMode))];
      lookupTable := lookupTable[0xED := Some(SbcWith(AbsoluteMode))];
      lookupTable := lookupTable[0x38 := Some(SecImplied)];
      lookupTable := lookupTable[0x85 := Some(StaZeroPage)];
    }

    /** The lda, ldx or ldy a table entry calls. */
    method LoadInto(reg: Register, val: int)
      modifies this
      ensures Snapshot() == Dispatch.LoadInto(old(Snapshot()), reg, val)
      ensures running == old(running) && lookupTable == old(lookupTable)
    {
      match reg
      case RegA => Lda(val);
      case RegX => Ldx(val);
      case RegY => Ldy(val);
    }

    /** Calling the lambda a table entry holds. */
    method RunHandler(h: Handler) returns (ok: bool)
      requires Valid()
      modifies this, ram
      ensures Valid()
      ensures Outcome(ok) == Dispatch.RunHandler(old(Snapshot()), h)
      ensures running == old(running) && lookupTable == old(lookupTable)
    {
      match h
      case NopImplied =>
        Implied();
        Nop();
        ok := true;
      case Load(reg, mode) =>
        var val;
        ok, val := Operand(mode);
        if ok { LoadInto(reg, val); }
      case SbcWith(mode) =>
        var val;
        ok, val := Operand(mode);
        if ok { Sbc(val); }
      case LsrAccumulator =>
        LsrAcc();
        ok := true;
      case LsrZeroPage => ok := LsrMem(PC + 1);
      case LsrAbsolute => ok := LsrMem(Hcat(PC + 2, PC + 1));
      case SecImplied =>
        Implied();
        Sec();
        ok := true;
      case StaZeroPage => ok := StaZp(PC + 1);
    }

    method ExecuteStore(c: ChainOp, arg: int) returns (ok: bool)
      requires Valid() && IsStore(c)
      modifies this, ram
      ensures Valid()
      ensures Outcome(ok) == Dispatch.ExecuteStore(old(Snapshot()), c, arg)
      ensures running == old(running) && lookupTable == old(lookupTable)
    {
      match c
      case StaZeroPageX => ok := StaZpx(arg);
      case StaAbsolute => ok := StaAbs(arg);
      case StaAbsoluteY => ok := StaAbsY(arg);
      case StaIndirectX => ok := StaIndX(arg);
      case StaIndirectY => ok := StaIndY(arg);
      case StxAbsolute => ok := StxAbs(arg);
      case StyAbsolute => ok := StyAbs(arg);
      case _ => assert false;
    }

    /** Transfers, increments and decrements of X, Y and AX. */
    method ExecuteRegister(c: ChainOp)
      requires Valid() && IsRegister(c)
      modifies this
      ensures Valid()
      ensures Snapshot() == Dispatch.ExecuteRegister(old(Snapshot()), c)
      ensures running == old(running) && lookupTable == old(lookupTable)
    {
      if c.TaxImplied? {
        Tax();
      } else if c.TxaImplied? {
        Txa();
      } else if c.InxImplied? {
        Inx();
      } else if c.InyImplied? {
        Iny();
      } else {
        Dex();
      }
    }

    /** Increments and decrements of a memory cell. */
    method ExecuteMemory(c: ChainOp, arg: int) returns (ok: bool)
      requires Valid() && IsMemory(c)
      modifies this, ram
      ensures Valid()
      ensures Outcome(ok) == Dispatch.ExecuteMemory(old(Snapshot()), c, arg)
      ensures running == old(running) && lookupTable == old(lookupTable)
    {
      match c
      case IncZeroPage => ok := IncZp(arg);
      case DecZeroPage => ok := DecMem(arg, 1);
      case DecAbsolute => ok := DecMem(arg, 2);
      case _ => assert false;
    }

    /** AND, ADC and CLC. */
    method ExecuteArith(c: ChainOp, arg: int) returns (ok: bool)
      requires Valid() && IsArith(c)
      modifies this, ram
      ensures Valid()
      ensures Outcome(ok) == Dispatch.ExecuteArith(old(Snapshot()), c, arg)
      ensures running == old(running) && lookupTable == old(lookupTable)
    {
      if c.AndImmediate? {
        AndIm(arg);
        ok := true;
      } else if c.AdcImmediate? {
        AdcIm(arg);
        ok := true;
      } else if c.AdcZeroPage? {
        ok := AdcZp(arg);
      } else {
        Clc();
        ok := true;
      }
    }

    /** The two BIT tests. */
    method ExecuteBitTest(c: ChainOp, arg: int) returns (ok: bool)
      requires Valid() && IsBitTest(c)
      modifies this, ram
      ensures Valid()
      ensures Outcome(ok) == Dispatch.ExecuteBitTest(old(Snapshot()), c, arg)
      ensures running == old(running) && lookupTable == old(lookupTable)
    {
      match c
      case BitZeroPage => ok := BitZp(arg);
      case BitAbsolute => ok := BitAbs(arg);
      case _ => assert false;
    }

    /** The five branches. */
    method ExecuteBranch(c: ChainOp, arg: int)
      requires Valid() && IsBranch(c)
      modifies this
      ensures Valid()
      ensures Snapshot() == Dispatch.ExecuteBranch(old(Snapshot()), c, arg)
      ensures running == old(running) && lookupTable == old(lookupTable)
    {
      match c
      case BccRelative => Bcc(arg);
      case BcsRelative => Bcs(arg);
      case BeqRelative => Beq(arg);
      case BneRelative => Bne(arg);
      case BplRelative => Bpl(arg);
      case _ => assert false;
    }

    /** The compares. */
    method ExecuteCompare(c: ChainOp, arg: int) returns (ok: bool)
      requires Valid() && IsCompare(c)
      modifies this, ram
      ensures Valid()
      ensures Outcome(ok) == Dispatch.ExecuteCompare(old(Snapshot()), c, arg)
      ensures running == old(running) && lookupTable == old(lookupTable)
    {
      if c.CmpImmediate? {
        CmpIm(arg);
        ok := true;
      } else if c.CmpZeroPage? {
        ok := CmpZp(arg);
      } else if c.CpxImmediate? {
        CpxIm(arg);
        ok := true;
      } else if c.CpxZeroPage? {
        ok := CpxZp(arg);
      } else {
        CpyIm(arg);
        ok := true;
      }
    }

    /** The jumps, JSR and RTS. */
    method ExecuteJump(c: ChainOp, arg: int) returns (ok: bool)
      requires Valid() && IsJump(c)
      modifies this, ram
      ensures Valid()
      ensures Outcome(ok) == Dispatch.ExecuteJump(old(Snapshot()), c, arg)
      ensures running == old(running) && lookupTable == old(lookupTable)
    {
      match c
      case JmpAbsolute => JmpAbs(arg); ok := true;
      case JmpIndirect => ok := JmpInd(arg);
      case JsrAbsolute => ok := Jsr(arg);
      case RtsImplied => ok := Rts();
      case _ => assert false;
    }

    /** BRK, PHA and PLA. */
    method ExecuteStack(c: ChainOp) returns (ok: bool)
      requires Valid() && IsStack(c)
      modifies this, ram
      ensures Valid()
      ensures Outcome(ok) == Dispatch.ExecuteStack(old(Snapshot()), c)
      ensures running == old(running) && lookupTable == old(lookupTable)
    {
      match c
      case BrkImplied => ok := Brk();
      case PhaImplied => ok := Pha();
      case PlaImplied => ok := Pla();
    }

    /** The body one test of the opcode chain calls, with the argument read from the slice. */
    method Execute(c: ChainOp, arg: int) returns (ok: bool)
      requires Valid()
      modifies this, ram
      ensures Valid()
      ensures Outcome(ok) == Dispatch.Execute(old(Snapshot()), c, arg)
      ensures running == old(running) && lookupTable == old(lookupTable)
    {
      if IsStore(c) {
        ok := ExecuteStore(c, arg);
      } else if IsRegister(c) {
        ExecuteRegister(c);
        ok := true;
      } else if IsMemory(c) {
        ok := ExecuteMemory(c, arg);
      } else if IsArith(c) {
        ok := ExecuteArith(c, arg);
      } else if IsBitTest(c) {
        ok := ExecuteBitTest(c, arg);
      } else if IsBranch(c) {
        ExecuteBranch(c, arg);
        ok := true;
      } else if IsCompare(c) {
        ok := ExecuteCompare(c, arg);
      } else if IsJump(c) {
        ok := ExecuteJump(c, arg);
      } else {
        ok := ExecuteStack(c);
      }
    }

    /** The End-of-ROM path: running stops and the Break bit is set. */
    method EndOfRom()
      modifies this
      ensures Snapshot() == Dispatch.EndOfRom(old(Snapshot()))
      ensures !running && lookupTable == old(lookupTable)
    {
      running := false;
      flags := SetBit(flags, BREAK, true);
    }

    /**
     * decode_instruction(ins): the table entry for ins[0], or unk, then the
     * chain of opcode tests. Any IndexError takes the End-of-ROM path, which
     * the result reports.
     */
    method DecodeInstruction(ins: seq<int>) returns (endOfRom: bool)
      requires Valid()
      modifies this, ram
      ensures Valid()
      ensures (Snapshot(), endOfRom) == Decode(old(Snapshot()), old(lookupTable), ins)
      ensures running == (if endOfRom then false else old(running))
      ensures lookupTable == old(lookupTable)
    {
      if ins == [] {
        EndOfRom();
        return true;
      }
      var opcode := ins[0];
      if !InRange(lookupTable, opcode) {
        EndOfRom();
        return true;
      }
      var ok := true;
      match lookupTable[Slot(lookupTable, opcode)] {
        case None => Unk(opcode);
        case Some(h) => ok := RunHandler(h);
      }
      if !ok {
        EndOfRom();
        return true;
      }
      match ChainDecode(opcode) {
        case None =>
        case Some(c) =>
          match ChainArgument(ins, ChainOperand(c)) {
            case None => ok := false;
            case Some(arg) => ok := Execute(c, arg);
          }
      }
      if !ok {
        EndOfRom();
        return true;
      }
      return false;
    }

    /**
     * tick(rand): `rand` stands for randint(0, 255). Writes it at 0xFE,
     * moves PC on by `offset`, decodes the three bytes at PC and increments
     * PC; the Break bit makes the tick a breakpoint, after which the CPU
     * runs again. A heap with no cell 0xFE makes the write raise, and that
     * IndexError escapes tick.
     */
    method Tick(rand: int) returns (status: Status)
      requires Valid()
      modifies this, ram
      ensures Valid()
      ensures (Snapshot(), status) == Dispatch.Tick(old(Snapshot()), old(lookupTable), rand)
      ensures running == match status
                         case EndOfRomReached => false
                         case Breakpoint => true
                         case Stepped => old(running)
                         case Crashed => old(running)
      ensures lookupTable == old(lookupTable)
    {
      ghost var m0, table := Snapshot(), lookupTable;
      var written := ram.Write(0xFE, rand);
      if !written {
        // the IndexError escapes tick
        return Crashed;
      }
      PC := PC + offset;
      var index := PC;
      offset := 0;
      ghost var m1 := Snapshot();
      assert Prepare(m0, rand) == Some(m1);
      var ins := Slice(ram.heap, index, index + 3);
      assert ins == Fetch(m1);
      var endOfRom := DecodeInstruction(ins);
      ghost var decoded := (Snapshot(), endOfRom);
      TickDecodes(m0, table, rand, m1, decoded);
      status := AfterDecoding(endOfRom);
    }

    /**
     * The end of tick once decode_instruction has returned: nothing more at
     * the End of ROM; otherwise PC is incremented, and a set Break bit pauses
     * the run for a breakpoint before it resumes.
     */
    method AfterDecoding(endOfRom: bool) returns (status: Status)
      requires Valid()
      modifies this
      ensures Valid()
      ensures (Snapshot(), status) == AfterDecode((old(Snapshot()), endOfRom))
      ensures running == match status
                         case EndOfRomReached => old(running)
                         case Breakpoint => true
                         case Stepped => old(running)
                         case Crashed => old(running)
      ensures lookupTable == old(lookupTable)
    {
      if endOfRom {
        return EndOfRomReached;
      }
      PC := PC + 1;
      if CheckBit(flags, BREAK) {
        // the run pauses for the breakpoint and resumes
        running := false;
        running := true;
        status := Breakpoint;
      } else {
        status := Stepped;
      }
    }

    /**
     * load_rom(path) over the file's bytes `rom`: writes rom[i] at
     * 0x600 + i in order. A ROM running past the end of the heap raises
     * IndexError after the cells that fit are written.
     */
    method LoadRom(rom: seq<int>) returns (ok: bool)
      requires Valid()
      modifies ram
      ensures Valid()
      ensures ok <==> 0x600 + |rom| <= |old(ram.heap)| || rom == []
      ensures ram.heap == Loaded(old(ram.heap), rom)
    {
      var i := 0;
      while i < |rom|
        invariant 0 <= i <= |rom|
        invariant Valid()
        invariant 0x600 + i <= |ram.heap| || i == 0
        invariant ram.heap == Loaded(old(ram.heap), rom[..i])
      {
        ok := ram.Write(0x600 + i, rom[i]);
        if !ok {
          return;
        }
        i := i + 1;
      }
      ok := true;
    }
  }

  /**
   * The heap after load_rom has written `rom` from 0x600: each byte that
   * fits is in place and every other cell is as it was.
   */
  function Loaded(heap: seq<int>, rom: seq<int>): (r: seq<int>)
    ensures |r| == |heap|
    ensures forall j :: 0 <= j < |heap| ==> r[j] == if 0x600 <= j < 0x600 + |rom| then rom[j - 0x600] else heap[j]
  {
    seq(|heap|, j requires 0 <= j < |heap| => if 0x600 <= j < 0x600 + |rom| then rom[j - 0x600] else heap[j])
  }
}
