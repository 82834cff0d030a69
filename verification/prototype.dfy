/**
 * The first, two-instruction CPU (6502.py) as values: its registers, the
 * load and store it knows, the decoder and one tick. The ROM is the byte
 * string the constructor read from a file, given here as a sequence.
 *
 * Unlike the later CPU, this one toggles its flags with `^` instead of
 * setting them, adds the two address bytes of STA instead of joining them,
 * stores nothing, and never resets `offset`.
 */
module Prototype {
  import opened Lists
  import opened Bits
  import opened Alu

  /** The registers the prototype's instructions touch; SP is a constant list. */
  datatype Regs = Regs(AX: int, X: int, Y: int, PC: int, flags: int, offset: int)

  datatype Status = Stepped | EndOfRom

  /** The flags after lda(val): Zero toggled when val is 0, then Negative toggled when val & 0x80 is set. */
  function LoadFlags(flags: int, val: int): int {
    var f := if val == 0 then BitXor(flags, 0x02) else flags;
    if BitAnd(val, 0x80) != 0 then BitXor(f, 0x80) else f
  }

  /** lda flips exactly the Zero bit for a zero value and exactly the Negative bit for a value with bit 7 set. */
  lemma LoadFlagsBits(flags: int, val: int)
    ensures forall k: nat :: CheckBit(LoadFlags(flags, val), k) ==
              (CheckBit(flags, k) != ((k == ZERO && val == 0) || (k == NEGATIVE && CheckBit(val, 7))))
    ensures 0 <= flags ==> 0 <= LoadFlags(flags, val)
  {
    assert Pow2(1) == 0x02 && Pow2(7) == 0x80;
    BitAndPow2(val, 7);
    CheckBitZero(7);
    var f := if val == 0 then BitXor(flags, 0x02) else flags;
    forall k: nat
      ensures CheckBit(f, k) == (CheckBit(flags, k) != (k == ZERO && val == 0))
    {
      if val == 0 {
        BitXorBits(flags, 0x02, k);
        CheckBitPow2(1, k);
      }
    }
    forall k: nat
      ensures CheckBit(LoadFlags(flags, val), k) ==
                (CheckBit(flags, k) != ((k == ZERO && val == 0) || (k == NEGATIVE && CheckBit(val, 7))))
    {
      if CheckBit(val, 7) {
        BitXorBits(f, 0x80, k);
        CheckBitPow2(7, k);
      }
    }
    if 0 <= flags {
      if val == 0 {
        BitXorNonNegative(flags, 0x02);
      }
      if CheckBit(val, 7) {
        BitXorNonNegative(f, 0x80);
      }
    }
  }

  /**
   * lda(val): AX becomes val and offset grows by one. Zero and Negative are
   * toggled, not set: Zero flips when val is 0 and Negative flips when bit 7
   * of val is set; no other flag bit changes.
   */
  function Lda(r: Regs, val: int): (s: Regs)
    ensures s == r.(AX := val, flags := s.flags, offset := r.offset + 1)
    ensures CheckBit(s.flags, ZERO) == (CheckBit(r.flags, ZERO) != (val == 0))
    ensures CheckBit(s.flags, NEGATIVE) == (CheckBit(r.flags, NEGATIVE) != CheckBit(val, 7))
    ensures forall k: nat :: k != ZERO && k != NEGATIVE ==> CheckBit(s.flags, k) == CheckBit(r.flags, k)
    ensures 0 <= r.flags ==> 0 <= s.flags
  {
    LoadFlagsBits(r.flags, val);
    r.(AX := val, flags := LoadFlags(r.flags, val), offset := r.offset + 1)
  }

  /** sta(addr): stores nothing; the only effect is two operand bytes added to offset. */
  function Sta(r: Regs, addr: int): (s: Regs)
    ensures s == r.(offset := r.offset + 2)
  {
    r.(offset := r.offset + 2)
  }

  /** The operand bytes an opcode accounts for: one for LDA #, two for STA abs, none otherwise. */
  function OperandBytes(op: int): nat {
    if op == 0xA9 then 1 else if op == 0x8D then 2 else 0
  }

  /**
   * decode_instruction(instruction): an IndexError on the instruction slice
   * (empty, or too short for the operand the opcode reads) is the End-of-ROM
   * path and changes nothing; LDA # loads the next byte; STA abs receives the
   * SUM of the two following bytes; every other opcode is ignored.
   */
  function Decode(r: Regs, ins: seq<int>): (res: (Regs, bool))
    ensures res.1 <==> ins == [] || (ins[0] == 0xA9 && |ins| < 2) || (ins[0] == 0x8D && |ins| < 3)
    ensures res.1 ==> res.0 == r
    ensures !res.1 ==> res.0 == r.(AX := res.0.AX, flags := res.0.flags, offset := r.offset + OperandBytes(ins[0]))
    ensures !res.1 && ins[0] == 0xA9 ==> res.0 == Lda(r, ins[1])
    ensures !res.1 && ins[0] != 0xA9 ==> res.0.AX == r.AX && res.0.flags == r.flags
  {
    if ins == [] then (r, true)
    else if ins[0] == 0xA9 then
      if |ins| < 2 then (r, true) else (Lda(r, ins[1]), false)
    else if ins[0] == 0x8D then
      if |ins| < 3 then (r, true) else (Sta(r, ins[1] + ins[2]), false)
    else (r, false)
  }

  /** The index tick reads at: PC + offset. */
  function FetchIndex(r: Regs): int {
    r.PC + r.offset
  }

  /** `rom[index:index+3]`, which Python clamps to the end of the ROM. */
  function Fetch(rom: seq<int>, r: Regs): seq<int> {
    Slice(rom, FetchIndex(r), FetchIndex(r) + 3)
  }

  /**
   * tick(): decodes the slice at PC + offset and then adds 1 to PC. On the
   * End-of-ROM path exit() raises SystemExit out of decode_instruction, so
   * the increment never happens.
   */
  function Tick(rom: seq<int>, r: Regs): (res: (Regs, Status))
    ensures var d := Decode(r, Fetch(rom, r));
            && (res.1 == EndOfRom <==> d.1)
            && (d.1 ==> res.0 == r)
            && (!d.1 ==> res.0 == d.0.(PC := r.PC + 1))
  {
    var d := Decode(r, Fetch(rom, r));
    if d.1 then (r, EndOfRom) else (d.0.(PC := d.0.PC + 1), Stepped)
  }

  /**
   * A completed tick adds 1 to PC and the opcode's operand bytes to offset,
   * so the next fetch is 1 + those bytes further on; offset never shrinks.
   */
  lemma TickAdvances(rom: seq<int>, r: Regs)
    requires 0 <= FetchIndex(r)
    ensures var s := Tick(rom, r);
            s.1 == Stepped ==>
              && FetchIndex(r) < |rom|
              && s.0.PC == r.PC + 1
              && s.0.offset == r.offset + OperandBytes(rom[FetchIndex(r)])
              && FetchIndex(s.0) == FetchIndex(r) + 1 + OperandBytes(rom[FetchIndex(r)])
              && s.0.offset >= r.offset
  {
    var ins := Fetch(rom, r);
    if ins != [] {
      assert ins[0] == rom[FetchIndex(r)];
    }
  }

  /** A fetch index at or past the end of the ROM gives an empty slice: End of ROM, nothing changes. */
  lemma TickPastEnd(rom: seq<int>, r: Regs)
    requires |rom| <= FetchIndex(r)
    ensures Tick(rom, r) == (r, EndOfRom)
  {
    assert Fetch(rom, r) == [];
  }

  /** Any opcode other than LDA # and STA abs only moves PC on by one. */
  lemma OtherOpcodesOnlyStep(rom: seq<int>, r: Regs)
    requires 0 <= FetchIndex(r) < |rom|
    requires rom[FetchIndex(r)] != 0xA9 && rom[FetchIndex(r)] != 0x8D
    ensures Tick(rom, r) == (r.(PC := r.PC + 1), Stepped)
  {
    assert Fetch(rom, r)[0] == rom[FetchIndex(r)];
  }

  /**
   * Because lda toggles rather than sets, loading 0 twice leaves every flag
   * as it was: Zero is flipped on and then off again.
   */
  lemma TwoZeroLoadsRestoreFlags(r: Regs)
    requires 0 <= r.flags
    ensures Lda(Lda(r, 0), 0) == r.(AX := 0, offset := r.offset + 2)
    ensures CheckBit(Lda(r, 0).flags, ZERO) == !CheckBit(r.flags, ZERO)
  {
    var s := Lda(Lda(r, 0), 0);
    CheckBitZero(7);
    forall k: nat
      ensures CheckBit(s.flags, k) == CheckBit(r.flags, k)
    {
    }
    SameBitsEqual(s.flags, r.flags);
  }

  /**
   * The program LDA #$05; STA $0200 from a fresh prototype: two ticks load 5
   * and skip the store's operand, and the third finds the ROM exhausted.
   */
  lemma LoadStoreProgram()
    ensures var rom := [0xA9, 0x05, 0x8D, 0x00, 0x02];
            var t1 := Tick(rom, Regs(0, 0, 0, 0, 0, 0));
            var t2 := Tick(rom, t1.0);
            var t3 := Tick(rom, t2.0);
            && t1 == (Regs(5, 0, 0, 1, 0, 1), Stepped)
            && t2 == (Regs(5, 0, 0, 2, 0, 3), Stepped)
            && t3 == (t2.0, EndOfRom)
  {
    var rom := [0xA9, 0x05, 0x8D, 0x00, 0x02];
    var r0 := Regs(0, 0, 0, 0, 0, 0);
    assert Fetch(rom, r0) == [0xA9, 0x05, 0x8D];
    assert BitAnd(5, 0x80) == 0;
    assert LoadFlags(0, 5) == 0;
    var r1 := Regs(5, 0, 0, 1, 0, 1);
    assert Fetch(rom, r1) == [0x8D, 0x00, 0x02];
    var r2 := Regs(5, 0, 0, 2, 0, 3);
    TickPastEnd(rom, r2);
  }
}

/**
 * The prototype CPU object: its registers are fields that lda, sta,
 * decode_instruction and tick update in place. Each method is specified by
 * the function of the same name in module Prototype over `Snapshot()`.
 */
module PrototypeCpu {
  import opened Lists
  import opened Bits
  import opened Prototype

  class CPU {
    var AX: int
    var X: int
    var Y: int
    var SP: seq<int>
    var PC: int
    var flags: int
    var running: bool
    var offset: int
    var rom: seq<int>

    /** The registers as one value. */
    ghost function Snapshot(): Regs
      reads this
    {
      Regs(AX, X, Y, PC, flags, offset)
    }

    /** A new CPU: every register 0, SP the two-byte list [1, 0], not running, the ROM's bytes loaded. */
    constructor (rom: seq<int>)
      ensures Snapshot() == Regs(0, 0, 0, 0, 0, 0)
      ensures SP == [1, 0] && !running && this.rom == rom
    {
      AX := 0;
      X := 0;
      Y := 0;
      SP := [1, 0];
      PC := 0;
      flags := 0;
      running := false;
      offset := 0;
      this.rom := rom;
    }

    /** lda(val), as Prototype.Lda. */
    method Lda(val: int)
      modifies this
      ensures Snapshot() == Prototype.Lda(old(Snapshot()), val)
      ensures SP == old(SP) && running == old(running) && rom == old(rom)
    {
      AX := val;
      if val == 0 {
        flags := BitXor(flags, 0x02);
      }
      if BitAnd(val, 0x80) != 0 {
        flags := BitXor(flags, 0x80);
      }
      offset := offset + 1;
    }

    /** sta(addr), as Prototype.Sta. */
    method Sta(addr: int)
      modifies this
      ensures Snapshot() == Prototype.Sta(old(Snapshot()), addr)
      ensures SP == old(SP) && running == old(running) && rom == old(rom)
    {
      offset := offset + 2;
    }

    /** decode_instruction(instruction), as Prototype.Decode; `endOfRom` is the IndexError path. */
    method DecodeInstruction(ins: seq<int>) returns (endOfRom: bool)
      modifies this
      ensures (Snapshot(), endOfRom) == Prototype.Decode(old(Snapshot()), ins)
      ensures SP == old(SP) && running == old(running) && rom == old(rom)
    {
      if ins == [] {
        return true;
      }
      if ins[0] == 0xA9 {
        if |ins| < 2 {
          return true;
        }
        Lda(ins[1]);
      }
      if ins[0] == 0x8D {
        if |ins| < 3 {
          return true;
        }
        Sta(ins[1] + ins[2]);
      }
      return false;
    }

    /** tick(), as Prototype.Tick. */
    method Tick() returns (status: Status)
      modifies this
      ensures (Snapshot(), status) == Prototype.Tick(rom, old(Snapshot()))
      ensures SP == old(SP) && running == old(running) && rom == old(rom)
    {
      var index := PC + offset;
      var endOfRom := DecodeInstruction(Slice(rom, index, index + 3));
      if endOfRom {
        return EndOfRom;
      }
      PC := PC + 1;
      return Stepped;
    }
  }
}
