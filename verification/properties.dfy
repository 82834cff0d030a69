/**
 * Properties that relate several steps of the CPU: where the next fetch
 * happens, a subroutine call and its return, a push and its pull, and the
 * places where the code as written departs from the processor it emulates.
 */
module Properties {
  import opened Lists
  import opened Bits
  import opened Alu
  import opened MachineState
  import opened Addressing
  import opened Instructions
  import opened Dispatch

  /**
   * After a tick that decoded an instruction which does not assign PC, the
   * next fetch is one past the old fetch index plus the operand bytes the
   * instruction accounted for.
   */
  lemma NextFetch(m: Machine, rand: int)
    ensures var r := Tick(m, LookupTable(), rand);
            r.1 == Stepped || r.1 == Breakpoint ==>
              var ins := Fetch(Prepare(m, rand).value);
              ins != [] && 0 <= ins[0] && !ChangesOpcodePC(ins[0]) ==>
                r.0.PC == FetchIndex(m) + 1 &&
                FetchIndex(r.0) == FetchIndex(m) + 1 + OperandBytes(ins[0])
  {
    if InRange(m.heap, 0xFE) {
      var m1 := Prepare(m, rand).value;
      var ins := Fetch(m1);
      if ins != [] && 0 <= ins[0] && !ChangesOpcodePC(ins[0]) {
        DecodeAdvancesOffset(m1, ins);
      }
    }
  }

  /** Two distinct indices of a list with more than one cell name distinct cells when one follows the other. */
  lemma AdjacentSlots(heap: seq<int>, i: int)
    requires |heap| > 1 && InRange(heap, i) && InRange(heap, i + 1)
    ensures Slot(heap, i) != Slot(heap, i + 1)
  {
  }

  /**
   * jsr_abs followed directly by rts: SP is back where it was, the two stack
   * cells are left 0, no other cell or register changes, and PC is the high
   * byte of the old PC with the low byte of the old PC + 2.
   */
  lemma JsrThenRts(m: Machine, addr: int)
    requires |m.heap| > 1 && InRange(m.heap, m.SP - 1) && InRange(m.heap, m.SP)
    ensures Jsr(m, addr).Ok?
    ensures var r := Rts(Jsr(m, addr).m);
            && r.Ok?
            && r.m == m.(PC := r.m.PC, heap := r.m.heap)
            && r.m.PC == (m.PC / 256) * 256 + (m.PC + 2) % 256
            && Read(r.m, m.SP - 1) == Some(0) && Read(r.m, m.SP) == Some(0)
            && |r.m.heap| == |m.heap|
            && (forall j :: (InRange(m.heap, j) && Slot(m.heap, j) != Slot(m.heap, m.SP - 1) &&
                             Slot(m.heap, j) != Slot(m.heap, m.SP)) ==> Read(r.m, j) == Read(m, j))
  {
    AdjacentSlots(m.heap, m.SP - 1);
    var j := Jsr(m, addr).m;
    assert Read(j, m.SP - 1) == Some(m.PC / 256);
    assert Read(j, m.SP) == Some((m.PC + 2) % 256);
    assert Cell(j, j.SP + 1) == m.PC / 256;
    assert Cell(j, j.SP + 2) == (m.PC + 2) % 256;
  }

  /**
   * A page-crossing JSR: the return address rts rebuilds for a call from
   * 0x06FE is 0x0600, not the 0x0700 the 6502 pushes.
   */
  lemma JsrAcrossPage(m: Machine, addr: int)
    requires |m.heap| > 1 && InRange(m.heap, m.SP - 1) && InRange(m.heap, m.SP) && m.PC == 0x06FE
    ensures Jsr(m, addr).Ok? && Rts(Jsr(m, addr).m).m.PC == 0x0600
  {
    JsrThenRts(m, addr);
  }

  /**
   * pha followed by pla: AX and SP are back to what they were and the stack
   * cell is left 0; nothing else changes.
   */
  lemma PhaThenPla(m: Machine)
    requires InRange(m.heap, m.SP)
    ensures Pha(m).Ok?
    ensures var r := Pla(Pha(m).m);
            && r.Ok?
            && r.m == m.(heap := r.m.heap)
            && Stored(m.heap, r.m.heap, m.SP, 0)
  {
    var p := Pha(m).m;
    assert p.SP + 1 == m.SP;
    assert Cell(p, p.SP + 1) == m.AX;
  }

  /**
   * sta_zpx tests the zero-page sum the wrong way round: a sum that stays in
   * the zero page has 255 subtracted, so below 255 the write lands at a
   * negative index, which Python counts from the end of the heap.
   */
  lemma StaZpxWrapsToEnd(m: Machine, ind: int)
    requires 0 <= ind && 0 <= m.X && ind + m.X < 255 && |m.heap| >= 256
    ensures StaZpx(m, ind).Ok?
    ensures Read(StaZpx(m, ind).m, |m.heap| + ind + m.X - 255) == Some(m.AX)
  {
    assert Slot(m.heap, ind + m.X - 255) == |m.heap| + ind + m.X - 255;
  }

  /** The lookup table never holds a handler for an opcode the chain also tests. */
  lemma TableEntriesKeepPC(m: Machine, op: int)
    requires TableEntry(op).Some?
    ensures !ChangesOpcodePC(op)
    ensures RunHandler(m, TableEntry(op).value).m.PC == m.PC
  {
    TableAndChainDisjoint(op);
  }

  /** LDA #$05 from a three-byte heap: AX is 5, Zero and Negative are clear, one operand byte. */
  lemma LdaImmediateExample()
    ensures var m := Machine(0, 0, 0, 0x1FF, 0, 0x20, 0, [0xA9, 5, 0]);
            var r := Decode(m, LookupTable(), [0xA9, 5, 0]);
            && !r.1
            && r.0.AX == 5 && r.0.offset == 1
            && !CheckBit(r.0.flags, ZERO) && !CheckBit(r.0.flags, NEGATIVE)
  {
    var m := Machine(0, 0, 0, 0x1FF, 0, 0x20, 0, [0xA9, 5, 0]);
    var table := LookupTable();
    assert table[Slot(table, 0xA9)] == Some(Load(RegA, ImmediateMode));
    var first := RunHandler(m, Load(RegA, ImmediateMode));
    assert Operand(m, ImmediateMode) == Ok(m.(offset := 1), 5);
    assert !CheckBit(5, 7);
    assert first == Done(Lda(m.(offset := 1), 5));
    assert ChainDecode(0xA9).None?;
    assert Chain(first.m, 0xA9, [0xA9, 5, 0]) == Done(first.m);
  }

  /**
   * ADC with AX = 0x7F, operand 1 and Carry clear: AX becomes 0x80, a signed
   * overflow, so Overflow and Negative are set and Carry and Zero are clear.
   */
  lemma AdcOverflowExample(m: Machine)
    requires m.AX == 0x7F && !CheckBit(m.flags, CARRY)
    ensures var a := Adc(m, 1);
            && a.AX == 0x80
            && CheckBit(a.flags, OVERFLOW) && CheckBit(a.flags, NEGATIVE)
            && !CheckBit(a.flags, CARRY) && !CheckBit(a.flags, ZERO)
  {
    assert CarryValue(m.flags) == 0;
    assert CheckBit(0x80, 7);
    assert SignedOverflow(0x7F, 1);
  }
}
