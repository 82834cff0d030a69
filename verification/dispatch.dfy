/**
 * Instruction dispatch and the clock tick of the CPU: the 256-entry lookup
 * table of the seventeen opcodes that go through it, the chain of opcode
 * tests that handles the rest, decode_instruction with its End-of-ROM path,
 * and tick.
 */
module Dispatch {
  import opened Lists
  import opened Bits
  import opened Alu
  import opened MachineState
  import opened Addressing
  import opened Instructions

  // ---------------------------------------------------------------- lookup table

  datatype Register = RegA | RegX | RegY

  /** The seventeen handlers the lookup table holds. */
  datatype Handler =
    | NopImplied
    | Load(reg: Register, mode: Mode)
    | SbcWith(mode: Mode)
    | LsrAccumulator
    | LsrZeroPage
    | LsrAbsolute
    | SecImplied
    | StaZeroPage

  /** The table's entry for each opcode; None for every opcode it does not list. */
  function TableEntry(op: int): Option<Handler> {
    match op
    case 0xEA => Some(NopImplied)
    case 0xA9 => Some(Load(RegA, ImmediateMode))
    case 0xA5 => Some(Load(RegA, ZeroPageMode))
    case 0xB5 => Some(Load(RegA, ZeroPageXMode))
    case 0xA1 => Some(Load(RegA, IndirectXMode))
    case 0xB1 => Some(Load(RegA, IndirectYMode))
    case 0xA2 => Some(Load(RegX, ImmediateMode))
    case 0xA6 => Some(Load(RegX, ZeroPageMode))
    case 0xA0 => Some(Load(RegY, ImmediateMode))
    case 0x4A => Some(LsrAccumulator)
    case 0x46 => Some(LsrZeroPage)
    case 0x4E => Some(LsrAbsolute)
    case 0xE9 => Some(SbcWith(ImmediateMode))
    case 0xE5 => Some(SbcWith(ZeroPageMode))
    case 0xED => Some(SbcWith(AbsoluteMode))
    case 0x38 => Some(SecImplied)
    case 0x85 => Some(StaZeroPage)
    case _ => None
  }

  /** The opcodes that have a table entry. */
  const TableOpcodes: set<int> :=
    {0xEA, 0xA9, 0xA5, 0xB5, 0xA1, 0xB1, 0xA2, 0xA6, 0xA0, 0x4A, 0x46, 0x4E, 0xE9, 0xE5, 0xED, 0x38, 0x85}

  /**
   * setup_lookup_table: 256 entries, of which exactly the seventeen listed
   * opcodes hold a handler.
   */
  function LookupTable(): (t: seq<Option<Handler>>)
    ensures |t| == 0x100
    ensures forall op :: 0 <= op < 0x100 ==> (t[op].Some? <==> op in TableOpcodes)
    ensures forall op :: 0 <= op < 0x100 ==> t[op] == TableEntry(op)
  {
    seq(0x100, op => TableEntry(op))
  }

  /** What a handler adds to `offset` when it completes. */
  function HandlerBytes(h: Handler): nat {
    match h
    case Load(_, mode) => ModeBytes(mode)
    case SbcWith(mode) => ModeBytes(mode)
    case StaZeroPage => 1
    case NopImplied | LsrAccumulator | LsrZeroPage | LsrAbsolute | SecImplied => 0
  }

  /** The lda, ldx or ldy a table entry calls. */
  function LoadInto(m: Machine, reg: Register, val: int): (r: Machine)
    ensures r.PC == m.PC && r.offset == m.offset
    ensures SameBitsExcept(r.flags, m.flags, {ZERO, NEGATIVE})
  {
    match reg
    case RegA => Lda(m, val)
    case RegX => Ldx(m, val)
    case RegY => Ldy(m, val)
  }

  /** `ld?(mode())`: the mode's value loaded into a register. */
  function LoadWith(m: Machine, reg: Register, mode: Mode): (r: Exec<()>)
    ensures r.m.PC == m.PC
    ensures r.Ok? ==> r.m.offset == m.offset + ModeBytes(mode)
    ensures SameBitsExcept(r.m.flags, m.flags, {ZERO, NEGATIVE})
  {
    match Operand(m, mode)
    case Raised(m1) => Raised(m1)
    case Ok(m1, v) => Done(LoadInto(m1, reg, v))
  }

  /** `sbc(mode())`: the mode's value subtracted from AX. */
  function SbcWithMode(m: Machine, mode: Mode): (r: Exec<()>)
    ensures r.m.PC == m.PC
    ensures r.Ok? ==> r.m.offset == m.offset + ModeBytes(mode)
    ensures SameBitsExcept(r.m.flags, m.flags, {CARRY, ZERO, OVERFLOW, NEGATIVE})
  {
    match Operand(m, mode)
    case Raised(m1) => Raised(m1)
    case Ok(m1, v) => Done(Sbc(m1, v))
  }

  /**
   * Calling a table entry. No handler changes PC; a completed one has moved
   * `offset` by its operand bytes (none for the shifts, which use PC + 1 and
   * hcat(PC + 2, PC + 1) themselves as the address).
   */
  function RunHandler(m: Machine, h: Handler): (r: Exec<()>)
    ensures r.m.PC == m.PC
    ensures r.Ok? ==> r.m.offset == m.offset + HandlerBytes(h)
    ensures CheckBit(m.flags, BREAK) ==> CheckBit(r.m.flags, BREAK)
  {
    match h
    case NopImplied => Done(Nop(Implied(m)))
    case Load(reg, mode) =>
      var r := LoadWith(m, reg, mode);
      KeepsBreak(r.m.flags, m.flags, {ZERO, NEGATIVE});
      r
    case SbcWith(mode) =>
      var r := SbcWithMode(m, mode);
      KeepsBreak(r.m.flags, m.flags, {CARRY, ZERO, OVERFLOW, NEGATIVE});
      r
    case LsrAccumulator =>
      var r := LsrAcc(m);
      KeepsBreak(r.flags, m.flags, {CARRY});
      Done(r)
    case LsrZeroPage =>
      var r := LsrMem(m, m.PC + 1);
      KeepsBreak(r.m.flags, m.flags, {CARRY});
      r
    case LsrAbsolute =>
      var r := LsrMem(m, Hcat(m.PC + 2, m.PC + 1));
      KeepsBreak(r.m.flags, m.flags, {CARRY});
      r
    case SecImplied =>
      var r := Sec(Implied(m));
      KeepsBreak(r.flags, m.flags, {CARRY});
      Done(r)
    case StaZeroPage => StaZp(m, m.PC + 1)
  }

  // ---------------------------------------------------------------- opcode chain

  /** The instructions the chain of opcode tests handles, one per test. */
  datatype ChainOp =
    | StaZeroPageX | StaAbsolute | StaAbsoluteY | StaIndirectX | StaIndirectY | StxAbsolute | StyAbsolute
    | TaxImplied | TxaImplied | IncZeroPage | InxImplied | InyImplied | DecZeroPage | DecAbsolute | DexImplied
    | AndImmediate | AdcImmediate | AdcZeroPage | BitZeroPage | BitAbsolute | BrkImplied
    | BccRelative | BcsRelative | BeqRelative | BneRelative | BplRelative | ClcImplied
    | CmpImmediate | CmpZeroPage | CpxImmediate | CpxZeroPage | CpyImmediate
    | JmpAbsolute | JmpIndirect | JsrAbsolute | RtsImplied | PhaImplied | PlaImplied

  /** The opcode each test of the chain compares against. */
  function ChainDecode(op: int): Option<ChainOp> {
    match op
    case 0x95 => Some(StaZeroPageX)
    case 0x8D => Some(StaAbsolute)
    case 0x99 => Some(StaAbsoluteY)
    case 0x81 => Some(StaIndirectX)
    case 0x91 => Some(StaIndirectY)
    case 0x8E => Some(StxAbsolute)
    case 0x8C => Some(StyAbsolute)
    case 0xAA => Some(TaxImplied)
    case 0x8A => Some(TxaImplied)
    case 0xE6 => Some(IncZeroPage)
    case 0xE8 => Some(InxImplied)
    case 0xC8 => Some(InyImplied)
    case 0xC6 => Some(DecZeroPage)
    case 0xCE => Some(DecAbsolute)
    case 0xCA => Some(DexImplied)
    case 0x29 => Some(AndImmediate)
    case 0x69 => Some(AdcImmediate)
    case 0x65 => Some(AdcZeroPage)
    case 0x24 => Some(BitZeroPage)
    case 0x2C => Some(BitAbsolute)
    case 0x00 => Some(BrkImplied)
    case 0x90 => Some(BccRelative)
    case 0xB0 => Some(BcsRelative)
    case 0xF0 => Some(BeqRelative)
    case 0xD0 => Some(BneRelative)
    case 0x10 => Some(BplRelative)
    case 0x18 => Some(ClcImplied)
    case 0xC9 => Some(CmpImmediate)
    case 0xC5 => Some(CmpZeroPage)
    case 0xE0 => Some(CpxImmediate)
    case 0xE4 => Some(CpxZeroPage)
    case 0xC0 => Some(CpyImmediate)
    case 0x4C => Some(JmpAbsolute)
    case 0x6C => Some(JmpIndirect)
    case 0x20 => Some(JsrAbsolute)
    case 0x60 => Some(RtsImplied)
    case 0x48 => Some(PhaImplied)
    case 0x68 => Some(PlaImplied)
    case _ => None
  }

  /**
   * How many bytes of the three-byte instruction slice an instruction of the
   * chain reads: one for `instruction[1]`, two for
   * `hcat(instruction[2], instruction[1])`, none otherwise.
   */
  function ChainOperand(c: ChainOp): nat {
    match c
    case StaZeroPageX | StaIndirectX | StaIndirectY | IncZeroPage | DecZeroPage => 1
    case AndImmediate | AdcImmediate | AdcZeroPage | BitZeroPage => 1
    case BccRelative | BcsRelative | BeqRelative | BneRelative | BplRelative => 1
    case CmpImmediate | CmpZeroPage | CpxImmediate | CpxZeroPage | CpyImmediate => 1
    case StaAbsolute | StaAbsoluteY | StxAbsolute | StyAbsolute | DecAbsolute | BitAbsolute => 2
    case JmpAbsolute | JmpIndirect | JsrAbsolute => 2
    case TaxImplied | TxaImplied | InxImplied | InyImplied | DexImplied | BrkImplied | ClcImplied => 0
    case RtsImplied | PhaImplied | PlaImplied => 0
  }

  /** The chain instructions that may assign PC: branches, jumps, JSR and RTS. */
  predicate ChangesPC(c: ChainOp) {
    c.BccRelative? || c.BcsRelative? || c.BeqRelative? || c.BneRelative? || c.BplRelative? ||
    c.JmpAbsolute? || c.JmpIndirect? || c.JsrAbsolute? || c.RtsImplied?
  }

  /** The argument a chain instruction is called with, read from the instruction slice. */
  function ChainArgument(ins: seq<int>, n: nat): (r: Option<int>)
    ensures n == 0 ==> r.Some?
    ensures n == 1 ==> (r.Some? <==> |ins| >= 2)
    ensures n >= 2 ==> (r.Some? <==> |ins| >= 3)
  {
    if n == 0 then Some(0)
    else if n == 1 then Get(ins, 1)
    else if |ins| < 3 then None
    else Some(Hcat(ins[2], ins[1]))
  }

  predicate IsStore(c: ChainOp) {
    c.StaZeroPageX? || c.StaAbsolute? || c.StaAbsoluteY? || c.StaIndirectX? || c.StaIndirectY? || c.StxAbsolute? || c.StyAbsolute?
  }

  predicate IsRegister(c: ChainOp) {
    c.TaxImplied? || c.TxaImplied? || c.InxImplied? || c.InyImplied? || c.DexImplied?
  }

  predicate IsMemory(c: ChainOp) {
    c.IncZeroPage? || c.DecZeroPage? || c.DecAbsolute?
  }

  predicate IsArith(c: ChainOp) {
    c.AndImmediate? || c.AdcImmediate? || c.AdcZeroPage? || c.ClcImplied?
  }

  predicate IsBitTest(c: ChainOp) {
    c.BitZeroPage? || c.BitAbsolute?
  }

  predicate IsBranch(c: ChainOp) {
    c.BccRelative? || c.BcsRelative? || c.BeqRelative? || c.BneRelative? || c.BplRelative?
  }

  predicate IsCompare(c: ChainOp) {
    c.CmpImmediate? || c.CmpZeroPage? || c.CpxImmediate? || c.CpxZeroPage? || c.CpyImmediate?
  }

  predicate IsJump(c: ChainOp) {
    c.JmpAbsolute? || c.JmpIndirect? || c.JsrAbsolute? || c.RtsImplied?
  }

  /** What is left: BRK, PHA and PLA, the instructions that only push or pull. */
  predicate IsStack(c: ChainOp) {
    !IsStore(c) && !IsRegister(c) && !IsMemory(c) && !IsArith(c) && !IsBitTest(c) &&
    !IsBranch(c) && !IsCompare(c) && !IsJump(c)
  }

  /** The chain's stores, which leave the flags alone. */
  function ExecuteStore(m: Machine, c: ChainOp, arg: int): (r: Exec<()>)
    requires IsStore(c)
    ensures r.Raised? ==> r.m.PC == m.PC
    ensures CheckBit(m.flags, BREAK) ==> CheckBit(r.m.flags, BREAK)
    ensures !ChangesPC(c) ==> r.m.PC == m.PC
    ensures !ChangesPC(c) && r.Ok? ==> r.m.offset == m.offset + ChainOperand(c)
    ensures r.m.flags == m.flags
  {
    match c
    case StaZeroPageX => assert ChainOperand(c) == 1; StaZpx(m, arg)
    case StaAbsolute => assert ChainOperand(c) == 2; StaAbs(m, arg)
    case StaAbsoluteY => assert ChainOperand(c) == 2; StaAbsY(m, arg)
    case StaIndirectX => assert ChainOperand(c) == 1; StaIndX(m, arg)
    case StaIndirectY => assert ChainOperand(c) == 1; StaIndY(m, arg)
    case StxAbsolute => assert ChainOperand(c) == 2; StxAbs(m, arg)
    case StyAbsolute => assert ChainOperand(c) == 2; StyAbs(m, arg)
    case _ => assert false; Done(m)
  }

  /** The chain's transfers, increments and decrements of X, Y and AX, which cannot raise. */
  function ExecuteRegister(m: Machine, c: ChainOp): (r: Machine)
    requires IsRegister(c)
    ensures r.PC == m.PC && r.offset == m.offset
    ensures SameBitsExcept(r.flags, m.flags, {ZERO, NEGATIVE})
  {
    if c.TaxImplied? then Tax(m)
    else if c.TxaImplied? then Txa(m)
    else if c.InxImplied? then Inx(m)
    else if c.InyImplied? then Iny(m)
    else Dex(m)
  }

  /** The chain's increments and decrements of a memory cell, which leave Break alone. */
  function ExecuteMemory(m: Machine, c: ChainOp, arg: int): (r: Exec<()>)
    requires IsMemory(c)
    ensures r.Raised? ==> r.m.PC == m.PC
    ensures CheckBit(m.flags, BREAK) ==> CheckBit(r.m.flags, BREAK)
    ensures !ChangesPC(c) ==> r.m.PC == m.PC
    ensures !ChangesPC(c) && r.Ok? ==> r.m.offset == m.offset + ChainOperand(c)
  {
    match c
    case IncZeroPage => assert ChainOperand(c) == 1; IncZp(m, arg)
    case DecZeroPage => assert ChainOperand(c) == 1; DecMem(m, arg, 1)
    case DecAbsolute => assert ChainOperand(c) == 2; DecMem(m, arg, 2)
    case _ => assert false; Done(m)
  }

  /** The chain's AND, ADC and CLC. */
  function ExecuteArith(m: Machine, c: ChainOp, arg: int): (r: Exec<()>)
    requires IsArith(c)
    ensures r.Raised? ==> r.m == m
    ensures r.m.PC == m.PC
    ensures r.Ok? ==> r.m.offset == m.offset + ChainOperand(c)
    ensures CheckBit(m.flags, BREAK) ==> CheckBit(r.m.flags, BREAK)
  {
    if c.AndImmediate? then
      assert ChainOperand(c) == 1;
      var r := AndIm(m, arg);
      KeepsBreak(r.flags, m.flags, {ZERO, NEGATIVE});
      Done(r)
    else if c.AdcImmediate? then
      assert ChainOperand(c) == 1;
      var r := AdcIm(m, arg);
      KeepsBreak(r.flags, m.flags, {CARRY, ZERO, OVERFLOW, NEGATIVE});
      Done(r)
    else if c.AdcZeroPage? then
      assert ChainOperand(c) == 1;
      AdcZp(m, arg)
    else
      assert ChainOperand(c) == 0;
      var r := Clc(m);
      KeepsBreak(r.flags, m.flags, {CARRY});
      Done(r)
  }

  /** The chain's two BIT tests. */
  function ExecuteBitTest(m: Machine, c: ChainOp, arg: int): (r: Exec<()>)
    requires IsBitTest(c)
    ensures r.Raised? ==> r.m.PC == m.PC
    ensures CheckBit(m.flags, BREAK) ==> CheckBit(r.m.flags, BREAK)
    ensures !ChangesPC(c) ==> r.m.PC == m.PC
    ensures !ChangesPC(c) && r.Ok? ==> r.m.offset == m.offset + ChainOperand(c)
  {
    match c
    case BitZeroPage => assert ChainOperand(c) == 1; BitTest(m, arg, ZERO, 1)
    case BitAbsolute => assert ChainOperand(c) == 2; BitTest(m, arg, INTERRUPT, 2)
    case _ => assert false; Done(m)
  }

  /** The chain's five branches, which cannot raise. */
  function ExecuteBranch(m: Machine, c: ChainOp, arg: int): (r: Machine)
    requires IsBranch(c)
    ensures r.flags == m.flags
  {
    match c
    case BccRelative => Bcc(m, arg)
    case BcsRelative => Bcs(m, arg)
    case BeqRelative => Beq(m, arg)
    case BneRelative => Bne(m, arg)
    case BplRelative => Bpl(m, arg)
    case _ => assert false; m
  }

  /** The chain's compares, which change only flags. */
  function ExecuteCompare(m: Machine, c: ChainOp, arg: int): (r: Exec<()>)
    requires IsCompare(c)
    ensures r.Raised? ==> r.m.PC == m.PC
    ensures CheckBit(m.flags, BREAK) ==> CheckBit(r.m.flags, BREAK)
    ensures !ChangesPC(c) ==> r.m.PC == m.PC
    ensures !ChangesPC(c) && r.Ok? ==> r.m.offset == m.offset + ChainOperand(c)
  {
    assert ChainOperand(c) == 1;
    if c.CmpImmediate? then Done(CmpIm(m, arg))
    else if c.CmpZeroPage? then CmpZp(m, arg)
    else if c.CpxImmediate? then Done(CpxIm(m, arg))
    else if c.CpxZeroPage? then CpxZp(m, arg)
    else Done(CpyIm(m, arg))
  }

  /** The chain's jumps, JSR and RTS, which assign PC and leave the flags alone. */
  function ExecuteJump(m: Machine, c: ChainOp, arg: int): (r: Exec<()>)
    requires IsJump(c)
    ensures r.Raised? ==> r.m.PC == m.PC
    ensures r.m.flags == m.flags
  {
    match c
    case JmpAbsolute => Done(JmpAbs(m, arg))
    case JmpIndirect => JmpInd(m, arg)
    case JsrAbsolute => Jsr(m, arg)
    case RtsImplied => Rts(m)
    case _ => assert false; Done(m)
  }

  /** BRK, PHA and PLA. */
  function ExecuteStack(m: Machine, c: ChainOp): (r: Exec<()>)
    requires IsStack(c)
    ensures r.Raised? ==> r.m.PC == m.PC
    ensures CheckBit(m.flags, BREAK) ==> CheckBit(r.m.flags, BREAK)
    ensures !ChangesPC(c) ==> r.m.PC == m.PC
    ensures !ChangesPC(c) && r.Ok? ==> r.m.offset == m.offset + ChainOperand(c)
  {
    match c
    case BrkImplied => assert ChainOperand(c) == 0; Brk(m)
    case PhaImplied => assert ChainOperand(c) == 0; Pha(m)
    case PlaImplied => assert ChainOperand(c) == 0; Pla(m)
  }

  /**
   * The body each chain instruction calls with its argument. One that does
   * not assign PC leaves it alone and, when it completes, adds to `offset`
   * the number of operand bytes it read; none assigns PC before it raises,
   * and none clears Break.
   */
  function Execute(m: Machine, c: ChainOp, arg: int): (r: Exec<()>)
    ensures r.Raised? ==> r.m.PC == m.PC
    ensures CheckBit(m.flags, BREAK) ==> CheckBit(r.m.flags, BREAK)
    ensures !ChangesPC(c) ==> r.m.PC == m.PC
    ensures !ChangesPC(c) && r.Ok? ==> r.m.offset == m.offset + ChainOperand(c)
  {
    if IsStore(c) then ExecuteStore(m, c, arg)
    else if IsRegister(c) then
      var r := ExecuteRegister(m, c);
      KeepsBreak(r.flags, m.flags, {ZERO, NEGATIVE});
      Done(r)
    else if IsMemory(c) then ExecuteMemory(m, c, arg)
    else if IsArith(c) then ExecuteArith(m, c, arg)
    else if IsBitTest(c) then ExecuteBitTest(m, c, arg)
    else if IsBranch(c) then Done(ExecuteBranch(m, c, arg))
    else if IsCompare(c) then ExecuteCompare(m, c, arg)
    else if IsJump(c) then ExecuteJump(m, c, arg)
    else ExecuteStack(m, c)
  }

  /**
   * The chain for opcode `op`: an opcode no test matches does nothing;
   * otherwise the argument is read from the slice and the body runs.
   */
  function Chain(m: Machine, op: int, ins: seq<int>): (r: Exec<()>)
    ensures ChainDecode(op).None? ==> r == Done(m)
    ensures r.Raised? ==> r.m.PC == m.PC
    ensures CheckBit(m.flags, BREAK) ==> CheckBit(r.m.flags, BREAK)
    ensures !ChangesOpcodePC(op) ==> r.m.PC == m.PC
    ensures !ChangesOpcodePC(op) && r.Ok? ==> r.m.offset == m.offset + OpcodeChainOperand(op)
  {
    match ChainDecode(op)
    case None => Done(m)
    case Some(c) =>
      match ChainArgument(ins, ChainOperand(c))
      case None => Raised(m)
      case Some(arg) => Execute(m, c, arg)
  }

  /** Whether opcode `op` is a chain instruction that may assign PC. */
  predicate ChangesOpcodePC(op: int) {
    ChainDecode(op).Some? && ChangesPC(ChainDecode(op).value)
  }

  function OpcodeChainOperand(op: int): nat {
    match ChainDecode(op)
    case None => 0
    case Some(c) => ChainOperand(c)
  }

  // ---------------------------------------------------------------- decode

  /** The operand bytes a complete instruction adds to `offset`. */
  function OperandBytes(op: int): nat {
    match TableEntry(op)
    case Some(h) => HandlerBytes(h)
    case None => OpcodeChainOperand(op)
  }

  /** The End-of-ROM path: the Break bit is set in whatever state was reached. */
  function EndOfRom(m: Machine): (r: Machine)
    ensures r == m.(flags := r.flags)
    ensures CheckBit(r.flags, BREAK) && SameBitsExcept(r.flags, m.flags, {BREAK})
  {
    m.(flags := SetBit(m.flags, BREAK, true))
  }

  /**
   * decode_instruction(ins): the table entry for ins[0] (unk for an empty
   * entry), then the opcode chain. Any IndexError, from an empty slice, an
   * opcode outside the table, or a read or write out of the heap, takes the
   * End-of-ROM path; the second component reports it.
   */
  function Decode(m: Machine, table: seq<Option<Handler>>, ins: seq<int>): (r: (Machine, bool))
    ensures ins == [] || r.1 || !ChangesOpcodePC(ins[0]) ==> r.0.PC == m.PC
    ensures r.1 ==> CheckBit(r.0.flags, BREAK)
    ensures CheckBit(m.flags, BREAK) ==> CheckBit(r.0.flags, BREAK)
    ensures ins == [] ==> r.1 && r.0 == EndOfRom(m)
    ensures ins != [] && !InRange(table, ins[0]) ==> r.1 && r.0 == EndOfRom(m)
  {
    if ins == [] then (EndOfRom(m), true)
    else
      var op := ins[0];
      if !InRange(table, op) then (EndOfRom(m), true)
      else
        var first := match table[Slot(table, op)]
                     case None => Done(Unk(m, op))
                     case Some(h) => RunHandler(m, h);
        if first.Raised? then (EndOfRom(first.m), true)
        else
          var second := Chain(first.m, op, ins);
          if second.Raised? then (EndOfRom(second.m), true)
          else (second.m, false)
  }

  /** No opcode has both a table entry and a test in the chain. */
  lemma TableAndChainDisjoint(op: int)
    ensures TableEntry(op).Some? ==> ChainDecode(op).None?
  {
  }

  /**
   * An opcode with neither a table entry nor a chain test: the empty table
   * entry runs unk, the chain matches nothing, and the machine is unchanged.
   */
  lemma UnknownOpcodeNoOp(m: Machine, ins: seq<int>)
    requires ins != [] && 0 <= ins[0] < 0x100
    requires TableEntry(ins[0]).None? && ChainDecode(ins[0]).None?
    ensures Decode(m, LookupTable(), ins) == (m, false)
  {
    assert LookupTable()[ins[0]] == None;
  }

  /**
   * An opcode in the table runs its handler and nothing else: the handler's
   * result is the decoded machine, and its IndexError is the End of ROM.
   */
  lemma TableOpcodeRunsHandler(m: Machine, ins: seq<int>)
    requires ins != [] && TableEntry(ins[0]).Some?
    ensures var first := RunHandler(m, TableEntry(ins[0]).value);
            Decode(m, LookupTable(), ins) ==
              if first.Raised? then (EndOfRom(first.m), true) else (first.m, false)
  {
    var op := ins[0];
    assert 0 <= op < 0x100;
    assert LookupTable()[op] == TableEntry(op);
    TableAndChainDisjoint(op);
  }

  /**
   * A negative opcode in -256..-1 indexes the table from its end, as a Python
   * list does: it runs the entry of opcode + 256 (unk when that is empty),
   * and no chain test matches it.
   */
  lemma NegativeOpcodeWraps(m: Machine, ins: seq<int>)
    requires ins != [] && -0x100 <= ins[0] < 0
    ensures var r := Decode(m, LookupTable(), ins);
            match TableEntry(ins[0] + 0x100)
            case None => r == (m, false)
            case Some(h) =>
              var first := RunHandler(m, h);
              r == if first.Raised? then (EndOfRom(first.m), true) else (first.m, false)
  {
    var op := ins[0];
    assert Slot(LookupTable(), op) == op + 0x100;
    assert LookupTable()[op + 0x100] == TableEntry(op + 0x100);
    assert ChainDecode(op).None?;
  }

  /**
   * An opcode with a chain test runs that test on the operand bytes of the
   * slice; missing bytes, or an IndexError in the instruction, are the End
   * of ROM.
   */
  lemma ChainOpcodeExecutes(m: Machine, ins: seq<int>)
    requires ins != [] && 0 <= ins[0] < 0x100 && ChainDecode(ins[0]).Some?
    ensures var c := ChainDecode(ins[0]).value;
            var r := Decode(m, LookupTable(), ins);
            match ChainArgument(ins, ChainOperand(c))
            case None => r == (EndOfRom(m), true)
            case Some(arg) =>
              var e := Execute(m, c, arg);
              r == if e.Raised? then (EndOfRom(e.m), true) else (e.m, false)
  {
    var op := ins[0];
    TableAndChainDisjoint(op);
    assert LookupTable()[op] == None;
  }

  /**
   * With the table setup_lookup_table builds, a completed instruction that
   * does not assign PC has added exactly its operand bytes to `offset`: those
   * of its addressing mode for a table entry, those the chain read otherwise.
   */
  lemma DecodeAdvancesOffset(m: Machine, ins: seq<int>)
    requires ins != [] && 0 <= ins[0] && !ChangesOpcodePC(ins[0])
    ensures var r := Decode(m, LookupTable(), ins);
            !r.1 ==> r.0.offset == m.offset + OperandBytes(ins[0])
  {
    var op := ins[0];
    var table := LookupTable();
    if InRange(table, op) {
      assert table[Slot(table, op)] == TableEntry(op);
      TableAndChainDisjoint(op);
    }
  }

  // ---------------------------------------------------------------- tick

  /**
   * How a tick ends. Crashed is the IndexError of the write at 0xFE on a heap
   * of at most 0xFE cells: it comes before decode_instruction's handler and
   * escapes tick.
   */
  datatype Status = Stepped | Breakpoint | EndOfRomReached | Crashed

  /** The index tick fetches from: PC with the pending operand bytes added. */
  function FetchIndex(m: Machine): int {
    m.PC + m.offset
  }

  /**
   * The first statements of tick: the random byte at 0xFE, then PC catches up
   * with `offset`. None when the write raises, before anything has changed.
   */
  function Prepare(m: Machine, rand: int): (r: Option<Machine>)
    ensures r.Some? <==> InRange(m.heap, 0xFE)
    ensures r.Some? ==> r.value.PC == FetchIndex(m) && r.value.offset == 0
    ensures r.Some? ==>
              && r.value == m.(PC := r.value.PC, offset := 0, heap := r.value.heap)
              && Stored(m.heap, r.value.heap, 0xFE, rand)
  {
    if !InRange(m.heap, 0xFE) then None
    else Some(m.(heap := m.heap[0xFE := rand], PC := m.PC + m.offset, offset := 0))
  }

  /** The slice decode_instruction receives: heap[index:index + 3]. */
  function Fetch(m: Machine): seq<int> {
    Slice(m.heap, m.PC, m.PC + 3)
  }

  /**
   * What tick does once decode_instruction returns: nothing more at the End
   * of ROM (exit() has stopped the thread); otherwise PC is incremented and
   * a Break bit left set, whoever set it, makes the tick a breakpoint.
   */
  function AfterDecode(d: (Machine, bool)): (r: (Machine, Status))
    ensures d.1 ==> r == (d.0, EndOfRomReached)
    ensures !d.1 ==> r.0 == d.0.(PC := d.0.PC + 1) && r.1 != EndOfRomReached
    ensures !d.1 ==> (r.1 == Breakpoint <==> CheckBit(d.0.flags, BREAK))
    ensures r.1 != Crashed
  {
    if d.1 then (d.0, EndOfRomReached)
    else
      var m := d.0.(PC := d.0.PC + 1);
      (m, if CheckBit(m.flags, BREAK) then Breakpoint else Stepped)
  }

  /**
   * tick(rand): the random byte `rand` goes to 0xFE, PC advances by `offset`,
   * which is reset, the three bytes at PC are decoded, and PC is incremented.
   * At the End of ROM the run stops before the increment. A Break bit is
   * never cleared, so once set every later tick is a breakpoint. On a heap
   * too short for the write at 0xFE the tick crashes and nothing changes.
   */
  function Tick(m: Machine, table: seq<Option<Handler>>, rand: int): (r: (Machine, Status))
    ensures r.1 == Crashed <==> !InRange(m.heap, 0xFE)
    ensures r.1 == Crashed ==> r.0 == m
    ensures r.1 == EndOfRomReached ==> r.0.PC == FetchIndex(m) && CheckBit(r.0.flags, BREAK)
    ensures r.1 == Stepped || r.1 == Breakpoint ==> (r.1 == Breakpoint <==> CheckBit(r.0.flags, BREAK))
    ensures CheckBit(m.flags, BREAK) ==> CheckBit(r.0.flags, BREAK) && r.1 != Stepped
  {
    match Prepare(m, rand)
    case None => (m, Crashed)
    case Some(m1) => AfterDecode(Decode(m1, table, Fetch(m1)))
  }

  /** A tick whose write at 0xFE succeeds is the decode of the prepared machine, then AfterDecode. */
  lemma TickDecodes(m: Machine, table: seq<Option<Handler>>, rand: int, m1: Machine, d: (Machine, bool))
    requires Prepare(m, rand) == Some(m1) && d == Decode(m1, table, Fetch(m1))
    ensures Tick(m, table, rand) == AfterDecode(d)
  {
  }
}
