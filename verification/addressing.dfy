/**
 * The addressing modes of the CPU. Each mode reads its operand bytes at
 * PC+1 and PC+2, advances `offset` by the number of operand bytes it stands
 * for, and returns a cell of memory. The code as written has its own
 * arithmetic: zero-page indexing subtracts 255 past the page end, `zero_page`
 * returns the operand byte itself, and the indirect modes assemble the pointer
 * with the first byte read as the high byte.
 */
module Addressing {
  import opened Lists
  import opened Bits
  import opened MachineState

  /** Zero-page indexing as written: a sum past 255 has 255, not 256, taken off. */
  function ZeroPageWrap(base: int, index: int): (a: int)
    ensures 0 <= base < 256 && 0 <= index < 256 ==> 0 <= a < 256
    ensures base + index > 255 ==> a == base + index - 256 + 1
    ensures base + index <= 255 ==> a == base + index
  {
    if base + index > 255 then base + index - 255 else base + index
  }

  /** `self.ram.read(addr)` as the last step of a mode. */
  function Load(m: Machine, addr: int): (r: Exec<int>)
    ensures r.m == m
    ensures r.Ok? <==> InRange(m.heap, addr)
    ensures r.Ok? ==> Read(m, addr) == Some(r.v)
  {
    match Read(m, addr)
    case None => Raised(m)
    case Some(v) => Ok(m, v)
  }

  /**
   * The common shape of the indexed and indirect modes: the effective address
   * is worked out from memory (an IndexError there leaves the state as it
   * was), then `bytes` is added to `offset`, then that cell is read.
   */
  function Resolve(m: Machine, address: Option<int>, bytes: nat): (r: Exec<int>)
    ensures r.Ok? <==> address.Some? && InRange(m.heap, address.value)
    ensures r.Ok? ==> r.m == m.(offset := m.offset + bytes) && Read(m, address.value) == Some(r.v)
    ensures r.Raised? ==> r.m.(offset := m.offset) == m
  {
    match address
    case None => Raised(m)
    case Some(a) => Load(m.(offset := m.offset + bytes), a)
  }

  /** `hcat(read(PC + 2), read(PC + 1))`: the two operand bytes as one word. */
  function OperandWord(m: Machine): (r: Option<int>)
    ensures 0 <= m.PC && m.PC + 2 < |m.heap| ==> r == Some(Hcat(m.heap[m.PC + 2], m.heap[m.PC + 1]))
  {
    var hi :- Read(m, m.PC + 2);
    var lo :- Read(m, m.PC + 1);
    Some(Hcat(hi, lo))
  }

  /** immediate: one operand byte, which is the value. */
  function Immediate(m: Machine): (r: Exec<int>)
    ensures r.m == m.(offset := m.offset + 1)
    ensures r.Ok? <==> InRange(m.heap, m.PC + 1)
    ensures r.Ok? ==> Read(m, m.PC + 1) == Some(r.v)
  {
    Load(m.(offset := m.offset + 1), m.PC + 1)
  }

  /**
   * zero_page: one operand byte; the value returned is that byte, not the cell
   * it names. In the source immediate, zero_page and relative have the same
   * body, so the three members here coincide as well.
   */
  function ZeroPage(m: Machine): (r: Exec<int>)
    ensures r.m == m.(offset := m.offset + 1)
    ensures r.Ok? <==> InRange(m.heap, m.PC + 1)
    ensures r.Ok? ==> Read(m, m.PC + 1) == Some(r.v)
  {
    Load(m.(offset := m.offset + 1), m.PC + 1)
  }

  /** relative: one operand byte, the branch displacement; the same body as immediate. */
  function Relative(m: Machine): (r: Exec<int>)
    ensures r.m == m.(offset := m.offset + 1)
    ensures r.Ok? <==> InRange(m.heap, m.PC + 1)
    ensures r.Ok? ==> Read(m, m.PC + 1) == Some(r.v)
  {
    Load(m.(offset := m.offset + 1), m.PC + 1)
  }

  function ZeroPageXAddress(m: Machine): Option<int> {
    var rel :- Read(m, m.PC + 1);
    Some(ZeroPageWrap(rel, m.X))
  }

  function ZeroPageYAddress(m: Machine): Option<int> {
    var rel :- Read(m, m.PC + 1);
    Some(ZeroPageWrap(rel, m.Y))
  }

  function IndirectXAddress(m: Machine): Option<int> {
    var ind :- OperandWord(m);
    var rel := ZeroPageWrap(ind, m.X);
    var hi :- Read(m, rel);
    var lo :- Read(m, rel + 1);
    Some(Hcat(hi, lo))
  }

  function IndirectYAddress(m: Machine): Option<int> {
    var a :- Read(m, m.PC + 2);
    var hi :- Read(m, a + 1);
    var b :- Read(m, m.PC + 1);
    var lo :- Read(m, b);
    Some(Hcat(hi, lo) + m.Y)
  }

  /** zero_page_x: one operand byte; reads the cell at operand + X, wrapped as written. */
  function ZeroPageX(m: Machine): (r: Exec<int>)
    ensures r.Ok? <==> ZeroPageXAddress(m).Some? && InRange(m.heap, ZeroPageXAddress(m).value)
    ensures r.Ok? ==> r.m == m.(offset := m.offset + 1)
    ensures r.Ok? ==> ZeroPageXAddress(m).Some? && Read(m, ZeroPageXAddress(m).value) == Some(r.v)
    ensures r.Raised? ==> r.m.(offset := m.offset) == m
  {
    Resolve(m, ZeroPageXAddress(m), 1)
  }

  /** zero_page_y: one operand byte; reads the cell at operand + Y, wrapped as written. */
  function ZeroPageY(m: Machine): (r: Exec<int>)
    ensures r.Ok? <==> ZeroPageYAddress(m).Some? && InRange(m.heap, ZeroPageYAddress(m).value)
    ensures r.Ok? ==> r.m == m.(offset := m.offset + 1)
    ensures r.Ok? ==> ZeroPageYAddress(m).Some? && Read(m, ZeroPageYAddress(m).value) == Some(r.v)
    ensures r.Raised? ==> r.m.(offset := m.offset) == m
  {
    Resolve(m, ZeroPageYAddress(m), 1)
  }

  /** absolute: two operand bytes forming the address. */
  function Absolute(m: Machine): (r: Exec<int>)
    ensures r.Ok? <==> OperandWord(m).Some? && InRange(m.heap, OperandWord(m).value)
    ensures r.Ok? ==> r.m == m.(offset := m.offset + 2)
    ensures r.Ok? ==> OperandWord(m).Some? && Read(m, OperandWord(m).value) == Some(r.v)
    ensures r.Raised? ==> r.m.(offset := m.offset) == m
  {
    Resolve(m, OperandWord(m), 2)
  }

  /** absolute_x: two operand bytes plus X, without wrapping. */
  function AbsoluteX(m: Machine): (r: Exec<int>)
    ensures r.Ok? <==> OperandWord(m).Some? && InRange(m.heap, OperandWord(m).value + m.X)
    ensures r.Ok? ==> r.m == m.(offset := m.offset + 2)
    ensures r.Ok? ==> OperandWord(m).Some? && Read(m, OperandWord(m).value + m.X) == Some(r.v)
    ensures r.Raised? ==> r.m.(offset := m.offset) == m
  {
    Resolve(m, if OperandWord(m).Some? then Some(OperandWord(m).value + m.X) else None, 2)
  }

  /** absolute_y: two operand bytes plus Y, without wrapping. */
  function AbsoluteY(m: Machine): (r: Exec<int>)
    ensures r.Ok? <==> OperandWord(m).Some? && InRange(m.heap, OperandWord(m).value + m.Y)
    ensures r.Ok? ==> r.m == m.(offset := m.offset + 2)
    ensures r.Ok? ==> OperandWord(m).Some? && Read(m, OperandWord(m).value + m.Y) == Some(r.v)
    ensures r.Raised? ==> r.m.(offset := m.offset) == m
  {
    Resolve(m, if OperandWord(m).Some? then Some(OperandWord(m).value + m.Y) else None, 2)
  }

  /**
   * indirect: two operand bytes name a pointer; after `offset` advances, the
   * pointer cell is the high byte and the next cell the low byte of the target.
   */
  function Indirect(m: Machine): (r: Exec<int>)
    ensures r.Ok? <==>
              && OperandWord(m).Some?
              && var w := OperandWord(m).value;
                 && InRange(m.heap, w) && InRange(m.heap, w + 1)
                 && InRange(m.heap, Hcat(Cell(m, w), Cell(m, w + 1)))
    ensures r.Ok? ==> r.m == m.(offset := m.offset + 2)
    ensures r.Ok? ==>
              && OperandWord(m).Some?
              && var w := OperandWord(m).value;
                 && InRange(m.heap, w) && InRange(m.heap, w + 1)
                 && Read(m, Hcat(Cell(m, w), Cell(m, w + 1))) == Some(r.v)
    ensures r.Raised? ==> r.m.(offset := m.offset) == m
  {
    match OperandWord(m)
    case None => Raised(m)
    case Some(addr) =>
      var m1 := m.(offset := m.offset + 2);
      match Read(m1, addr)
      case None => Raised(m1)
      case Some(hi) =>
        match Read(m1, addr + 1)
        case None => Raised(m1)
        case Some(lo) => Load(m1, Hcat(hi, lo))
  }

  /** indirect_x: counted as one operand byte, though it reads two to form the pointer. */
  function IndirectX(m: Machine): (r: Exec<int>)
    ensures r.Ok? <==> IndirectXAddress(m).Some? && InRange(m.heap, IndirectXAddress(m).value)
    ensures r.Ok? ==> r.m == m.(offset := m.offset + 1)
    ensures r.Ok? ==> IndirectXAddress(m).Some? && Read(m, IndirectXAddress(m).value) == Some(r.v)
    ensures r.Raised? ==> r.m.(offset := m.offset) == m
  {
    Resolve(m, IndirectXAddress(m), 1)
  }

  /** indirect_y: one operand byte; the pointer's target plus Y. */
  function IndirectY(m: Machine): (r: Exec<int>)
    ensures r.Ok? <==> IndirectYAddress(m).Some? && InRange(m.heap, IndirectYAddress(m).value)
    ensures r.Ok? ==> r.m == m.(offset := m.offset + 1)
    ensures r.Ok? ==> IndirectYAddress(m).Some? && Read(m, IndirectYAddress(m).value) == Some(r.v)
    ensures r.Raised? ==> r.m.(offset := m.offset) == m
  {
    Resolve(m, IndirectYAddress(m), 1)
  }

  /** implied, implicit and accumulator: no operand bytes, no value. */
  function Implied(m: Machine): (r: Machine)
    ensures r == m.(offset := m.offset + 0)
  {
    m
  }

  /** The addressing modes that yield a value. */
  datatype Mode =
    | ImmediateMode | ZeroPageMode | ZeroPageXMode | ZeroPageYMode | RelativeMode
    | AbsoluteMode | AbsoluteXMode | AbsoluteYMode | IndirectMode | IndirectXMode | IndirectYMode

  /** The operand bytes each mode accounts for in `offset`. */
  function ModeBytes(mode: Mode): nat {
    match mode
    case ImmediateMode | ZeroPageMode | ZeroPageXMode | ZeroPageYMode | RelativeMode | IndirectXMode | IndirectYMode => 1
    case AbsoluteMode | AbsoluteXMode | AbsoluteYMode | IndirectMode => 2
  }

  /**
   * The value a mode yields. Whatever the mode, a completed read has moved
   * `offset` by exactly the mode's operand bytes and changed nothing else.
   */
  function Operand(m: Machine, mode: Mode): (r: Exec<int>)
    ensures r.Ok? ==> r.m == m.(offset := m.offset + ModeBytes(mode))
    ensures r.Raised? ==> r.m.(offset := m.offset) == m
  {
    match mode
    case ImmediateMode => Immediate(m)
    case ZeroPageMode => ZeroPage(m)
    case ZeroPageXMode => ZeroPageX(m)
    case ZeroPageYMode => ZeroPageY(m)
    case RelativeMode => Relative(m)
    case AbsoluteMode => Absolute(m)
    case AbsoluteXMode => AbsoluteX(m)
    case AbsoluteYMode => AbsoluteY(m)
    case IndirectMode => Indirect(m)
    case IndirectXMode => IndirectX(m)
    case IndirectYMode => IndirectY(m)
  }
}
