# py6502 core, modelled in Dafny

This project models the core of py6502, a MOS 6502 emulator written in Python: the
processor class of `cpu.py` (its lookup table, `decode_instruction`, the processor-state
checks, the addressing modes and every instruction body), the `RAM` class of `ram.py`,
the early prototype processor of `6502.py`, and two small helper files, the number
formatters of `util.py` and the colour helpers of `colors.py`.

The model follows the code as written, including the places where it differs from a
real 6502. It has two layers.

- **Values.** `MachineState.Machine` holds the registers, `offset` (the operand bytes
  the current instruction used, added to PC at the start of the next tick) and the
  heap. Each addressing mode (`Addressing`), instruction (`Instructions`) and dispatch
  step (`Dispatch`) is a function on it. A step that can raise IndexError returns
  `Exec`, which carries the state at the moment the exception was raised, because the
  statements before it have already run.
- **Objects.** The classes `Cpu.CPU`, `Ram.RAM` and `PrototypeCpu.CPU` have the
  Python classes' fields and update them in place. Each method is proved to leave the
  state the corresponding function gives.

The properties are lemmas about those functions (`Properties`, and the lemmas in
`Ram`, `Prototype`, `Util` and `Colors`).

Python semantics are modelled explicitly (`Lists`):

- A list index may be negative, counting from the end; any other index outside the
  list raises IndexError.
- Slices never raise.
- Integers are unbounded.
- `int(a / n)` truncates toward zero.
- `format(n, '0Nx')` and `zfill` pad after the sign.

The helpers `set_bit`, `check_bit`, `hcat`, `badd`, `bsub` and `decomp` are imported by
`cpu.py` but are not defined in `util.py`. They are not part of this model. `Bits`
reconstructs them from how they are called:

- `set_bit` forces one bit;
- `check_bit` tests one bit;
- `hcat(hi, lo)` is `hi * 256 + lo`;
- `badd` and `bsub` give the sum or difference modulo 256 with a carry;
- `decomp(v)` is `(-v) mod 256`, which is `256 - v` for 1 <= v <= 255 and 0 for v = 0.

Where the code departs from the 6502, the model follows the code:

- Registers are not masked to 8 or 16 bits. SP starts at 0x1FF and has no page wrap.
- Zero-page X/Y indexing subtracts 255, not 256, from a sum past 255.
- `sta_zpx` and `sta_indx` test the wrap the wrong way round: a sum that stays in the
  zero page becomes a negative index, which Python counts from the end of memory
  (`Properties.StaZpxWrapsToEnd`).
- absolute,X/Y do not wrap at 64 KiB. An address past the heap raises IndexError,
  which the decoder treats as the end of the ROM.
- Dispatch is a 17-entry lookup table followed by a chain of opcode tests. No opcode
  appears in both (`Dispatch.TableAndChainDisjoint`).
- `lsr_zp` and `lsr_abs` do not add their operand bytes to `offset`.
- `dec_zp` and `dec_abs` change no flag.
- `inc` sets Zero and Negative from the value before the increment.
- `bit_abs` records its zero test in bit 2 rather than in Zero.
- A backward branch subtracts `decomp(disp)` without the + 1 a forward branch adds.
- JSR pushes `PC >> 8` and `(PC + 2) & 0xFF`, so a call that crosses a page returns 256
  bytes short (`Properties.JsrAcrossPage`).
- `pop` clears the cell it reads.
- Reaching the end of the ROM sets Break and stops the CPU.
- In `6502.py`, LDA toggles Zero and Negative with XOR instead of setting them, and STA
  adds its two operand bytes and stores nothing.

## Model

| member | source | states |
|---|---|---|
| Lists.Set | ram.py:62-65 | `s[i] = v` succeeds exactly for -len(s) <= i < len(s); the new list has the same length, holds v at i and every other cell unchanged |
| Lists.Slice | cpu.py:141 | `heap[index:index+3]` never raises; it is empty exactly when the start is at or past the end, and three cells when all three exist |
| MachineState.Write | ram.py:62-65 | write/push through the CPU: defined exactly for a valid index; only the heap changes, and only at that cell |
| MachineState.Pop | ram.py:55-60 | pop through the CPU: defined exactly for a valid index; returns the cell and leaves it 0, nothing else changes |
| Ram.RAM.constructor | ram.py:7-16 | a new RAM keeps data_width and address_space and has exactly address_space zero cells (none for a non-positive size) |
| Ram.RAM.InitHeap | ram.py:44-48 | appends address_space zero cells to whatever the heap held |
| Ram.RAM.Push | ram.py:50-53 | writes data at heap[sp] (negative sp counts from the end) and changes no other cell; IndexError leaves the heap as it was |
| Ram.RAM.Pop | ram.py:55-60 | returns heap[sp] and sets that cell to 0; IndexError leaves the heap as it was |
| Ram.RAM.Write | ram.py:62-65 | writes data at heap[addr] and changes no other cell; IndexError leaves the heap as it was |
| Ram.RAM.Read | ram.py:67-70 | defined exactly for -len <= addr < len; returns heap[addr], counting a negative addr from the end |
| Ram.ReadAfterWrite | ram.py:62-70 | read after write returns the written value, every other cell reads as before, and the length is unchanged |
| Ram.PopTwice | ram.py:55-60 | pop returns the cell and keeps the length; a second pop of the same sp returns 0 and changes nothing |
| Ram.PushThenPop | ram.py:50-60 | push(d, sp) then pop(sp) returns d and leaves the heap as before except that cell, which is 0 |
| Alu.ZeroCheck | cpu.py:352-358 | Zero is set exactly when val is 0; no other flag bit changes |
| Alu.NegativeCheck | cpu.py:360-366 | Negative copies bit 7 of val; no other flag bit changes |
| Alu.CarryCheck | cpu.py:368-374 | Carry is set exactly when val > 255; no other flag bit changes |
| Alu.OverflowCheck | cpu.py:376-391 | Overflow is set exactly when both operands agree in bit 7 and their sum does not; no other flag bit changes |
| Alu.Nz | cpu.py:518-528 | the zero_check/negative_check pair every load and transfer runs: Zero iff v == 0, Negative iff bit 7 of v, nothing else |
| Alu.NegativeIffHigh | cpu.py:360-366 | for a byte, negative_check sets Negative exactly when the byte is at least 0x80 |
| Alu.FlagsStayByte | cpu.py:352-391 | setting or clearing one of the eight flag bits keeps the status register within 0..255 |
| Addressing.ZeroPageWrap | cpu.py:418-428 | zero-page indexing as written: a sum above 255 has 255 taken off (0x100 becomes 1), otherwise the sum; stays a byte for byte inputs |
| Addressing.Load | cpu.py:413-416 | a mode's final `ram.read`: defined exactly for a valid index and returns that cell, state unchanged |
| Addressing.Resolve | cpu.py:418-428 | reading a computed address: on success offset grows by the mode's bytes and the value is the cell; an IndexError keeps everything but offset |
| Addressing.OperandWord | cpu.py:447-452 | the two operand bytes as one word, high byte at PC + 2 and low byte at PC + 1 |
| Addressing.Implied | cpu.py:393-406 | implied, implicit and accumulator add 0 to offset and change nothing else |
| Addressing.Immediate | cpu.py:408-411 | adds 1 to offset and yields the byte at PC + 1; IndexError exactly when that cell does not exist |
| Addressing.ZeroPage | cpu.py:413-416 | adds 1 to offset and yields the operand byte itself, not the cell it names |
| Addressing.ZeroPageX | cpu.py:418-428 | adds 1 to offset and yields the cell at operand + X, wrapped as written; succeeds exactly when the operand byte and that cell exist |
| Addressing.ZeroPageY | cpu.py:430-440 | adds 1 to offset and yields the cell at operand + Y, wrapped as written; succeeds exactly when the operand byte and that cell exist |
| Addressing.Relative | cpu.py:442-445 | adds 1 to offset and yields the displacement byte at PC + 1 |
| Addressing.Absolute | cpu.py:447-452 | adds 2 to offset and yields the cell at the operand word; succeeds exactly when both operand bytes and that cell exist |
| Addressing.AbsoluteX | cpu.py:454-459 | adds 2 to offset and yields the cell at the operand word + X, with no wrap; succeeds exactly when both operand bytes and that cell exist |
| Addressing.AbsoluteY | cpu.py:461-466 | adds 2 to offset and yields the cell at the operand word + Y, with no wrap; succeeds exactly when both operand bytes and that cell exist |
| Addressing.Indirect | cpu.py:468-473 | on success adds 2 to offset and returns the cell at hcat(cell at the pointer, cell after it), the pointer being the operand word; succeeds exactly when the operand bytes, both pointer cells and the target cell exist; an IndexError keeps everything but offset |
| Addressing.IndirectX | cpu.py:475-487 | adds 1 to offset (though it reads two pointer bytes) and yields the cell the X-indexed pointer names; succeeds exactly when every cell read exists |
| Addressing.IndirectY | cpu.py:489-505 | adds 1 to offset and yields the cell at the pointer's target + Y; succeeds exactly when every cell read exists |
| Addressing.Operand | cpu.py:393-505 | every value mode adds exactly its byte count to offset: 1 for immediate, zp, zp,x/y, relative, (ind,x), (ind),y; 2 for abs, abs,x/y, indirect |
| Instructions.Unk | cpu.py:506-511 | an unknown opcode changes nothing |
| Instructions.Nop | cpu.py:512-517 | nop changes nothing |
| Instructions.Lda | cpu.py:518-528 | AX becomes val, Zero iff val == 0, Negative iff bit 7 of val; no other register, flag bit or cell changes |
| Instructions.Ldx | cpu.py:529-538 | X becomes val, Zero iff val == 0, Negative iff bit 7 of val; nothing else changes |
| Instructions.Ldy | cpu.py:539-548 | Y becomes val, Zero iff val == 0, Negative iff bit 7 of val; nothing else changes |
| Instructions.LsrAcc | cpu.py:550-554 | AX is halved (2 * new + old bit 0 == old) and Carry receives the old bit 0; no other flag bit changes |
| Instructions.LsrMem | cpu.py:556-573 | lsr_zp and lsr_abs: the cell is halved in place and Carry receives its old bit 0; as written neither adds its operand bytes to offset; IndexError changes nothing |
| Instructions.ArithFlags | cpu.py:806-821 | the flag sequence adc and sbc share: Carry as given, Zero iff the result is 0, Overflow per overflow_check, Negative from bit 7; nothing else |
| Instructions.Sbc | cpu.py:574-594 | AX becomes (AX - val - carry) mod 256 with Zero and Negative set from it and Overflow from the old AX and val; only Carry, Zero, Overflow and Negative may change |
| Instructions.SubtractTwice | cpu.py:577-578 | the two bsub calls of sbc subtract val and then the carry, together, modulo 256 |
| Instructions.Adc | cpu.py:806-821 | AX becomes (AX + val + carry) mod 256, Carry iff that sum exceeds 255 (so AX + 256*Carry is the exact sum for bytes), Zero and Negative from the result, Overflow from the old AX and val |
| Instructions.AdcIm | cpu.py:824-829 | adc with one operand byte |
| Instructions.AdcZp | cpu.py:832-841 | adc with the cell at addr and one operand byte; IndexError exactly for an invalid addr, changing nothing |
| Instructions.Sec | cpu.py:595-600 | Carry set, every other bit and register unchanged |
| Instructions.Clc | cpu.py:980-985 | Carry cleared, every other bit and register unchanged |
| Instructions.StoreAt | cpu.py:602-606 | the write every store ends in: exactly that cell takes the value and offset grows by the operand bytes; IndexError changes nothing |
| Instructions.StaZp | cpu.py:602-606 | stores AX at addr, one operand byte, no flag or register change |
| Instructions.InvertedWrap | cpu.py:609-619 | the wrap test sta_zpx and sta_indx use is inverted: a sum that fits in the zero page has 255 taken off (a non-positive index), a larger one is kept |
| Instructions.StaZpx | cpu.py:609-619 | stores AX at the inverted-wrap index of operand + X, one operand byte |
| Instructions.StaAbs | cpu.py:622-626 | stores AX at addr, two operand bytes |
| Instructions.StaAbsY | cpu.py:629-636 | stores AX at addr + Y, two operand bytes |
| Instructions.StaIndX | cpu.py:639-653 | stores AX at the address read through the inverted-wrap zero-page pointer, one operand byte |
| Instructions.StaIndY | cpu.py:656-667 | stores AX at the pointer's target + Y, one operand byte |
| Instructions.StxAbs | cpu.py:669-675 | stores X at addr, two operand bytes |
| Instructions.StyAbs | cpu.py:677-683 | stores Y at addr, two operand bytes |
| Instructions.Tax | cpu.py:685-694 | X becomes AX, Zero/Negative from AX, nothing else changes |
| Instructions.Txa | cpu.py:696-706 | AX becomes X, Zero/Negative from X, nothing else changes |
| Instructions.Inc | cpu.py:708-714 | the cell at addr becomes (val + 1) mod 256, while Zero and Negative follow val as it was before the increment; IndexError changes nothing |
| Instructions.IncZp | cpu.py:717-726 | the cell at addr becomes (cell + 1) mod 256, Zero/Negative from the old cell, one operand byte; IndexError changes nothing |
| Instructions.Inx | cpu.py:728-738 | X becomes (X + 1) mod 256, Zero/Negative from it |
| Instructions.Iny | cpu.py:740-750 | Y becomes (Y + 1) mod 256, Zero/Negative from it |
| Instructions.Decremented | cpu.py:752-762 | a byte minus one with 8-bit wrap-around (0 becomes 255) |
| Instructions.DecMem | cpu.py:752-777 | dec_zp and dec_abs: the cell is decremented with wrap-around, no flag changes, offset grows by the operand bytes; IndexError changes nothing |
| Instructions.Dex | cpu.py:779-792 | X decremented with 8-bit wrap-around, Zero/Negative from the result |
| Instructions.AndIm | cpu.py:794-804 | AX becomes AX & val bit by bit, Zero iff the result is 0, Negative iff both bit 7s are set, one operand byte |
| Instructions.BitTest | cpu.py:843-874 | bit_zp and bit_abs: the chosen flag bit is set iff AX & cell == 0, Overflow and Negative copy bits 6 and 7 of the cell, AX unchanged |
| Instructions.BitZp | cpu.py:843-856 | Zero iff AX & cell == 0, Overflow and Negative copy bits 6 and 7 of the cell, no other flag, register or cell changes, one operand byte; an IndexError changes nothing |
| Instructions.BitAbs | cpu.py:859-874 | as written, bit 2 (Interrupt) rather than Zero records AX & cell == 0; Zero is untouched; Overflow and Negative copy bits 6 and 7 of the cell, no other flag, register or cell changes; two operand bytes; an IndexError changes nothing |
| Instructions.Brk | cpu.py:876-894 | stores PC at heap[SP] and the old flags at heap[SP - 1], lowers SP by 2, sets Break and changes no other flag bit or cell; PC unchanged; IndexError exactly when either cell is missing, and when only heap[SP - 1] is missing, PC is already stored and SP lowered by 1 |
| Instructions.Branch | cpu.py:895-978 | not taken: only offset grows by one; taken: offset stays and PC moves to PC + disp + 1 for disp < 0x80, to PC + disp - 256 (decomp subtracted, no + 1) for a byte disp >= 0x80 |
| Instructions.Bcc | cpu.py:895-910 | branches exactly when Carry is clear |
| Instructions.Bcs | cpu.py:912-927 | branches exactly when Carry is set |
| Instructions.Beq | cpu.py:929-944 | branches exactly when Zero is set |
| Instructions.Bne | cpu.py:946-961 | branches exactly when Zero is clear |
| Instructions.Bpl | cpu.py:963-978 | branches exactly when Negative is clear |
| Instructions.Compare | cpu.py:987-1003 | Carry iff reg >= val, Zero iff reg == val, Negative from bit 7 of (reg - val) mod 256; no other flag bit |
| Instructions.CmpIm | cpu.py:1006-1011 | Carry iff AX >= val, Zero iff equal, Negative from the difference; registers, heap and other flag bits unchanged; one operand byte |
| Instructions.CmpZp | cpu.py:1014-1023 | compares AX with the cell at addr, one operand byte; IndexError changes nothing |
| Instructions.CpxIm | cpu.py:1044-1049 | Carry iff X >= val, Zero iff equal, Negative from the difference; nothing else changes but offset + 1 |
| Instructions.CpxZp | cpu.py:1052-1061 | compares X with the cell at addr, one operand byte; IndexError changes nothing |
| Instructions.CpyIm | cpu.py:1082-1089 | Carry iff Y >= val, Zero iff equal, Negative from the difference; nothing else changes but offset + 1 |
| Instructions.JmpAbs | cpu.py:1091-1094 | PC becomes addr - 1, so the tick's + 1 lands on addr |
| Instructions.JmpInd | cpu.py:1097-1106 | PC becomes the word whose high byte is the cell at ind and low byte the next cell; IndexError changes nothing |
| Instructions.Jsr | cpu.py:1108-1120 | stores PC >> 8 at SP - 1 and (PC + 2) & 0xFF at SP, lowers SP by 2, PC = addr - 1; no other cell changes; a missing SP - 1 changes nothing, and a missing SP leaves PC >> 8 already stored at SP - 1 |
| Instructions.Rts | cpu.py:1122-1128 | pops the low byte at SP + 2 and the high byte at SP + 1, SP += 2, PC = high * 256 + low, both cells left 0; a missing SP + 1 only raises SP, and a missing SP + 2 leaves SP + 1 already cleared |
| Instructions.Pha | cpu.py:1130-1136 | stores AX at heap[SP] and lowers SP by one; nothing else changes |
| Instructions.Pla | cpu.py:1138-1142 | raises SP by one and pops heap[SP] into AX, leaving the cell 0; no flag changes |
| Dispatch.LookupTable | cpu.py:173-199 | 256 entries; an entry is present exactly for the 17 opcodes the table fills, each with its handler |
| Dispatch.LoadInto | cpu.py:518-548 | lda, ldx or ldy on a register keeps PC and offset and changes no flag but Zero and Negative |
| Dispatch.LoadWith | cpu.py:178-189 | a load handler: PC is kept, success adds the mode's operand bytes to offset, and only Zero and Negative may change |
| Dispatch.SbcWithMode | cpu.py:195-197 | an sbc handler: PC is kept, success adds the mode's operand bytes to offset, and only Carry, Zero, Overflow and Negative may change |
| Dispatch.RunHandler | cpu.py:176-199 | a table handler never moves PC, keeps Break, and on success adds its mode's operand bytes to offset |
| Dispatch.ChainArgument | cpu.py:218-331 | the operand a chain test reads: none needed, instruction[1], or hcat(instruction[2], instruction[1]); missing bytes are an IndexError |
| Dispatch.ExecuteStore | cpu.py:218-238 | the store tests of the chain keep the flags, PC and Break, and add their operand bytes to offset |
| Dispatch.ExecuteRegister | cpu.py:239-262 | tax, txa, inx, iny and dex keep PC and offset and change no flag but Zero and Negative |
| Dispatch.ExecuteMemory | cpu.py:245-260 | inc and dec on memory: a raise keeps PC, Break is kept, and offset grows by the operand bytes |
| Dispatch.ExecuteArith | cpu.py:263-298 | and, adc and clc: a raise changes nothing, PC is kept, Break is kept, and offset grows by the operand bytes |
| Dispatch.ExecuteBitTest | cpu.py:272-277 | bit on zero page or absolute: a raise keeps PC, Break is kept, and offset grows by the operand bytes |
| Dispatch.ExecuteBranch | cpu.py:281-296 | the five branch tests never change the flags |
| Dispatch.ExecuteCompare | cpu.py:299-313 | the compare tests: a raise keeps PC, Break is kept, and offset grows by the operand bytes |
| Dispatch.ExecuteJump | cpu.py:314-325 | jmp, jsr and rts: a raise keeps PC and the flags are never changed |
| Dispatch.ExecuteStack | cpu.py:278-331 | brk, pha and pla: a raise keeps PC, Break is never cleared, and those that keep PC add their operand bytes to offset |
| Dispatch.Execute | cpu.py:218-331 | any chain instruction: a raise keeps PC, Break is never cleared, and an instruction that does not assign PC adds exactly its operand bytes |
| Dispatch.Chain | cpu.py:218-331 | an opcode without a chain test changes nothing; otherwise as Execute, with the operand read from the slice |
| Dispatch.EndOfRom | cpu.py:333-344 | the IndexError handler sets Break and changes no other flag bit or register |
| Dispatch.Decode | cpu.py:201-344 | an empty slice or an opcode outside the table is End of ROM; End of ROM sets Break; PC is kept unless a chain instruction assigned it |
| Dispatch.TableAndChainDisjoint | cpu.py:173-331 | no opcode both has a table entry and a chain test |
| Dispatch.UnknownOpcodeNoOp | cpu.py:213-216 | an opcode with no table entry and no chain test runs unk and leaves the machine unchanged |
| Dispatch.TableOpcodeRunsHandler | cpu.py:213-214 | a table opcode gives exactly its handler's result, a raise being the End of ROM |
| Dispatch.ChainOpcodeExecutes | cpu.py:218-344 | a chain opcode runs its test on the slice's operand bytes; missing bytes or a raise are the End of ROM |
| Dispatch.NegativeOpcodeWraps | cpu.py:213-216 | an opcode in -256..-1 runs the table entry of opcode + 256, as a negative Python list index does, and no chain test |
| Dispatch.DecodeAdvancesOffset | cpu.py:201-344 | a completed instruction that does not assign PC adds exactly its operand bytes to offset |
| Dispatch.Prepare | cpu.py:127-133 | tick's first steps: the random byte is stored at 0xFE, PC becomes PC + offset and offset 0; nothing, exactly when the heap has no cell 0xFE |
| Dispatch.AfterDecode | cpu.py:143-161 | End of ROM returns the machine as decoded; otherwise PC advances by one and Breakpoint is reported exactly when Break is set |
| Dispatch.Tick | cpu.py:124-161 | Crashed, with nothing changed, exactly when the write at 0xFE raises; End of ROM leaves PC at the fetch index with Break set; otherwise Breakpoint is reported exactly when Break is set; a set Break is never cleared |
| Cpu.CPU.constructor | cpu.py:11-71 | AX, X, Y, PC 0, SP 0x1FF, flags 0x20, offset 0, not running, empty table; a fresh 64 KiB RAM when none is given |
| Cpu.CPU.ZeroCheck | cpu.py:352-358 | in place: the registers and heap after are Alu.ZeroCheck of those before |
| Cpu.CPU.NegativeCheck | cpu.py:360-366 | in place: the registers and heap after are Alu.NegativeCheck of those before |
| Cpu.CPU.CarryCheck | cpu.py:368-374 | in place: the registers and heap after are Alu.CarryCheck of those before |
| Cpu.CPU.OverflowCheck | cpu.py:376-391 | in place: the registers and heap after are Alu.OverflowCheck of those before |
| Cpu.CPU.Implied | cpu.py:393-406 | in place: the registers and heap after are Addressing.Implied of those before |
| Cpu.CPU.Immediate | cpu.py:408-411 | in place: the registers and heap after are Addressing.Immediate of those before; `ok` is false exactly when that raises IndexError |
| Cpu.CPU.ZeroPage | cpu.py:413-416 | in place: the registers and heap after are Addressing.ZeroPage of those before; `ok` is false exactly when that raises IndexError |
| Cpu.CPU.ZeroPageX | cpu.py:418-428 | in place: the registers and heap after are Addressing.ZeroPageX of those before; `ok` is false exactly when that raises IndexError |
| Cpu.CPU.ZeroPageY | cpu.py:430-440 | in place: the registers and heap after are Addressing.ZeroPageY of those before; `ok` is false exactly when that raises IndexError |
| Cpu.CPU.Relative | cpu.py:442-445 | in place: the registers and heap after are Addressing.Relative of those before; `ok` is false exactly when that raises IndexError |
| Cpu.CPU.Absolute | cpu.py:447-452 | in place: the registers and heap after are Addressing.Absolute of those before; `ok` is false exactly when that raises IndexError |
| Cpu.CPU.AbsoluteX | cpu.py:454-459 | in place: the registers and heap after are Addressing.AbsoluteX of those before; `ok` is false exactly when that raises IndexError |
| Cpu.CPU.AbsoluteY | cpu.py:461-466 | in place: the registers and heap after are Addressing.AbsoluteY of those before; `ok` is false exactly when that raises IndexError |
| Cpu.CPU.Indirect | cpu.py:468-473 | in place: the registers and heap after are Addressing.Indirect of those before; `ok` is false exactly when that raises IndexError |
| Cpu.CPU.IndirectX | cpu.py:475-487 | in place: the registers and heap after are Addressing.IndirectX of those before; `ok` is false exactly when that raises IndexError |
| Cpu.CPU.IndirectY | cpu.py:489-505 | in place: the registers and heap after are Addressing.IndirectY of those before; `ok` is false exactly when that raises IndexError |
| Cpu.CPU.Operand | cpu.py:393-505 | in place: the registers and heap after are Addressing.Operand of those before; `ok` is false exactly when that raises IndexError |
| Cpu.CPU.Unk | cpu.py:506-511 | in place: the registers and heap after are Instructions.Unk of those before |
| Cpu.CPU.Nop | cpu.py:512-517 | in place: the registers and heap after are Instructions.Nop of those before |
| Cpu.CPU.Lda | cpu.py:518-528 | in place: the registers and heap after are Instructions.Lda of those before |
| Cpu.CPU.Ldx | cpu.py:529-538 | in place: the registers and heap after are Instructions.Ldx of those before |
| Cpu.CPU.Ldy | cpu.py:539-548 | in place: the registers and heap after are Instructions.Ldy of those before |
| Cpu.CPU.LsrAcc | cpu.py:550-554 | in place: the registers and heap after are Instructions.LsrAcc of those before |
| Cpu.CPU.LsrMem | cpu.py:556-573 | in place: the registers and heap after are Instructions.LsrMem of those before; `ok` is false exactly when that raises IndexError |
| Cpu.CPU.Sbc | cpu.py:574-594 | in place: the registers and heap after are Instructions.Sbc of those before |
| Cpu.CPU.Sec | cpu.py:595-600 | in place: the registers and heap after are Instructions.Sec of those before |
| Cpu.CPU.Adc | cpu.py:806-821 | in place: the registers and heap after are Instructions.Adc of those before |
| Cpu.CPU.AdcIm | cpu.py:824-829 | in place: the registers and heap after are Instructions.AdcIm of those before |
| Cpu.CPU.AdcZp | cpu.py:832-841 | in place: the registers and heap after are Instructions.AdcZp of those before; `ok` is false exactly when that raises IndexError |
| Cpu.CPU.Clc | cpu.py:980-985 | in place: the registers and heap after are Instructions.Clc of those before |
| Cpu.CPU.StaZp | cpu.py:602-606 | in place: the registers and heap after are Instructions.StaZp of those before; `ok` is false exactly when that raises IndexError |
| Cpu.CPU.StaZpx | cpu.py:609-619 | in place: the registers and heap after are Instructions.StaZpx of those before; `ok` is false exactly when that raises IndexError |
| Cpu.CPU.StaAbs | cpu.py:622-626 | in place: the registers and heap after are Instructions.StaAbs of those before; `ok` is false exactly when that raises IndexError |
| Cpu.CPU.StaAbsY | cpu.py:629-636 | in place: the registers and heap after are Instructions.StaAbsY of those before; `ok` is false exactly when that raises IndexError |
| Cpu.CPU.StaIndX | cpu.py:639-653 | in place: the registers and heap after are Instructions.StaIndX of those before; `ok` is false exactly when that raises IndexError |
| Cpu.CPU.StaIndY | cpu.py:656-667 | in place: the registers and heap after are Instructions.StaIndY of those before; `ok` is false exactly when that raises IndexError |
| Cpu.CPU.StxAbs | cpu.py:669-675 | in place: the registers and heap after are Instructions.StxAbs of those before; `ok` is false exactly when that raises IndexError |
| Cpu.CPU.StyAbs | cpu.py:677-683 | in place: the registers and heap after are Instructions.StyAbs of those before; `ok` is false exactly when that raises IndexError |
| Cpu.CPU.Tax | cpu.py:685-694 | in place: the registers and heap after are Instructions.Tax of those before |
| Cpu.CPU.Txa | cpu.py:696-706 | in place: the registers and heap after are Instructions.Txa of those before |
| Cpu.CPU.Inc | cpu.py:708-714 | in place: the registers and heap after are Instructions.Inc of those before; `ok` is false exactly when that raises IndexError |
| Cpu.CPU.IncZp | cpu.py:717-726 | in place: the registers and heap after are Instructions.IncZp of those before; `ok` is false exactly when that raises IndexError |
| Cpu.CPU.Inx | cpu.py:728-738 | in place: the registers and heap after are Instructions.Inx of those before |
| Cpu.CPU.Iny | cpu.py:740-750 | in place: the registers and heap after are Instructions.Iny of those before |
| Cpu.CPU.DecMem | cpu.py:752-777 | in place: the registers and heap after are Instructions.DecMem of those before; `ok` is false exactly when that raises IndexError |
| Cpu.CPU.Dex | cpu.py:779-792 | in place: the registers and heap after are Instructions.Dex of those before |
| Cpu.CPU.AndIm | cpu.py:794-804 | in place: the registers and heap after are Instructions.AndIm of those before |
| Cpu.CPU.BitTest | cpu.py:843-874 | in place: the registers and heap after are Instructions.BitTest of those before; `ok` is false exactly when that raises IndexError |
| Cpu.CPU.BitZp | cpu.py:843-856 | in place: the registers and heap after are Instructions.BitZp of those before; `ok` is false exactly when that raises IndexError |
| Cpu.CPU.BitAbs | cpu.py:859-874 | in place: the registers and heap after are Instructions.BitAbs of those before; `ok` is false exactly when that raises IndexError |
| Cpu.CPU.Brk | cpu.py:876-894 | in place: the registers and heap after are Instructions.Brk of those before; `ok` is false exactly when that raises IndexError |
| Cpu.CPU.Branch | cpu.py:895-978 | in place: the registers and heap after are Instructions.Branch of those before |
| Cpu.CPU.Bcc | cpu.py:895-910 | in place: the registers and heap after are Instructions.Bcc of those before |
| Cpu.CPU.Bcs | cpu.py:912-927 | in place: the registers and heap after are Instructions.Bcs of those before |
| Cpu.CPU.Beq | cpu.py:929-944 | in place: the registers and heap after are Instructions.Beq of those before |
| Cpu.CPU.Bne | cpu.py:946-961 | in place: the registers and heap after are Instructions.Bne of those before |
| Cpu.CPU.Bpl | cpu.py:963-978 | in place: the registers and heap after are Instructions.Bpl of those before |
| Cpu.CPU.Cmp | cpu.py:987-1003 | in place: the registers and heap after are Instructions.Compare on AX of those before |
| Cpu.CPU.CmpIm | cpu.py:1006-1011 | in place: the registers and heap after are Instructions.CmpIm of those before |
| Cpu.CPU.CmpZp | cpu.py:1014-1023 | in place: the registers and heap after are Instructions.CmpZp of those before; `ok` is false exactly when that raises IndexError |
| Cpu.CPU.Cpx | cpu.py:1025-1041 | in place: the registers and heap after are Instructions.Compare on X of those before |
| Cpu.CPU.CpxIm | cpu.py:1044-1049 | in place: the registers and heap after are Instructions.CpxIm of those before |
| Cpu.CPU.CpxZp | cpu.py:1052-1061 | in place: the registers and heap after are Instructions.CpxZp of those before; `ok` is false exactly when that raises IndexError |
| Cpu.CPU.Cpy | cpu.py:1063-1079 | in place: the registers and heap after are Instructions.Compare on Y of those before |
| Cpu.CPU.CpyIm | cpu.py:1082-1089 | in place: the registers and heap after are Instructions.CpyIm of those before |
| Cpu.CPU.JmpAbs | cpu.py:1091-1094 | in place: the registers and heap after are Instructions.JmpAbs of those before |
| Cpu.CPU.JmpInd | cpu.py:1097-1106 | in place: the registers and heap after are Instructions.JmpInd of those before; `ok` is false exactly when that raises IndexError |
| Cpu.CPU.Jsr | cpu.py:1108-1120 | in place: the registers and heap after are Instructions.Jsr of those before; `ok` is false exactly when that raises IndexError |
| Cpu.CPU.Rts | cpu.py:1122-1128 | in place: the registers and heap after are Instructions.Rts of those before; `ok` is false exactly when that raises IndexError |
| Cpu.CPU.Pha | cpu.py:1130-1136 | in place: the registers and heap after are Instructions.Pha of those before; `ok` is false exactly when that raises IndexError |
| Cpu.CPU.Pla | cpu.py:1138-1142 | in place: the registers and heap after are Instructions.Pla of those before; `ok` is false exactly when that raises IndexError |
| Cpu.CPU.RunHandler | cpu.py:176-199 | in place: the registers and heap after are Dispatch.RunHandler of those before; `ok` is false exactly when that raises IndexError |
| Cpu.CPU.ExecuteStore | cpu.py:218-238 | in place: the registers and heap after are Dispatch.ExecuteStore of those before; `ok` is false exactly when that raises IndexError |
| Cpu.CPU.ExecuteRegister | cpu.py:239-262 | in place: the registers and heap after are Dispatch.ExecuteRegister of those before |
| Cpu.CPU.ExecuteMemory | cpu.py:245-260 | in place: the registers and heap after are Dispatch.ExecuteMemory of those before; `ok` is false exactly when that raises IndexError |
| Cpu.CPU.ExecuteArith | cpu.py:263-298 | in place: the registers and heap after are Dispatch.ExecuteArith of those before; `ok` is false exactly when that raises IndexError |
| Cpu.CPU.ExecuteBitTest | cpu.py:272-277 | in place: the registers and heap after are Dispatch.ExecuteBitTest of those before; `ok` is false exactly when that raises IndexError |
| Cpu.CPU.ExecuteBranch | cpu.py:281-296 | in place: the registers and heap after are Dispatch.ExecuteBranch of those before |
| Cpu.CPU.ExecuteCompare | cpu.py:299-313 | in place: the registers and heap after are Dispatch.ExecuteCompare of those before; `ok` is false exactly when that raises IndexError |
| Cpu.CPU.ExecuteJump | cpu.py:314-325 | in place: the registers and heap after are Dispatch.ExecuteJump of those before; `ok` is false exactly when that raises IndexError |
| Cpu.CPU.ExecuteStack | cpu.py:278-331 | in place: the registers and heap after are Dispatch.ExecuteStack of those before; `ok` is false exactly when that raises IndexError |
| Cpu.CPU.Execute | cpu.py:218-331 | in place: the registers and heap after are Dispatch.Execute of those before; `ok` is false exactly when that raises IndexError |
| Cpu.CPU.EndOfRom | cpu.py:333-344 | in place: the registers and heap after are Dispatch.EndOfRom, and running becomes false of those before |
| Cpu.CPU.ReadWord | cpu.py:447-452 | reads hcat(read(PC + 2), read(PC + 1)) in place; the result is Addressing.OperandWord of the state |
| Cpu.CPU.LoadInto | cpu.py:176-188 | the load a table handler ends in: lda, ldx or ldy by register, as Instructions.Lda/Ldx/Ldy |
| Cpu.CPU.SetupLookupTable | cpu.py:173-199 | the table field becomes Dispatch.LookupTable: 256 entries, 17 of them filled |
| Cpu.CPU.DecodeInstruction | cpu.py:201-344 | the state after and the End-of-ROM outcome are Dispatch.Decode of the state and table before; End of ROM clears running |
| Cpu.CPU.Tick | cpu.py:124-161 | the state after and the status are Dispatch.Tick of the state before; running is false after End of ROM, true after a breakpoint and unchanged after a crash |
| Cpu.CPU.AfterDecoding | cpu.py:143-161 | the state after and the status are Dispatch.AfterDecode of the state before and the End-of-ROM flag; running becomes true at a breakpoint and is otherwise kept |
| Cpu.CPU.LoadRom | cpu.py:163-171 | the write loop writes ROM byte i at 0x0600 + i in order; the heap afterwards is Cpu.Loaded of the heap before, even when it fails, and it fails exactly when a non-empty ROM runs past the heap |
| Cpu.Loaded | cpu.py:163-171 | the heap load_rom leaves: same length, ROM byte j - 0x600 at each cell j from 0x600 that the ROM reaches, every other cell unchanged |
| Properties.NextFetch | cpu.py:124-161 | after a tick that did not assign PC, PC is the old fetch index + 1 and the next fetch is that + the instruction's operand bytes |
| Properties.JsrThenRts | cpu.py:1108-1128 | jsr then rts: SP restored, the two stack cells left 0, nothing else changed, PC = (PC >> 8) * 256 + ((PC + 2) & 0xFF) |
| Properties.JsrAcrossPage | cpu.py:1108-1128 | a JSR at 0x06FE returns to 0x0600: the high byte is taken before the + 2, so a page crossing is lost |
| Properties.PhaThenPla | cpu.py:1130-1142 | pha then pla restores AX and SP and leaves the stack cell 0; nothing else changes |
| Properties.StaZpxWrapsToEnd | cpu.py:609-619 | for operand + X below 255, sta_zpx writes AX at len(heap) + operand + X - 255, near the end of memory |
| Properties.TableEntriesKeepPC | cpu.py:173-199 | a table opcode has no chain test, and its handler never moves PC |
| Properties.LdaImmediateExample | cpu.py:178 | LDA #$05 decodes to AX = 5, Zero and Negative clear, one operand byte |
| Properties.AdcOverflowExample | cpu.py:806-821 | ADC 1 with AX = 0x7F and Carry clear gives AX = 0x80 with Overflow and Negative set, Carry and Zero clear |
| Prototype.LoadFlagsBits | 6502.py:113-118 | lda's flag update flips exactly Zero for a zero value and exactly Negative for bit 7 set, and keeps the flags non-negative |
| Prototype.Lda | 6502.py:110-119 | AX becomes val and offset + 1; Zero and Negative are toggled (not set) on val == 0 and bit 7; no other bit or register changes |
| Prototype.Sta | 6502.py:123-125 | stores nothing: only offset grows, by 2 |
| Prototype.Decode | 6502.py:90-104 | End of ROM exactly for an empty slice or a load/store missing its operand bytes, changing nothing; otherwise PC is kept, offset grows by the operand bytes, only LDA # touches AX and flags |
| Prototype.Tick | 6502.py:75-84 | decodes the slice at PC + offset; End of ROM leaves everything as it was, otherwise PC grows by 1 |
| Prototype.TickAdvances | 6502.py:75-84 | a completed tick adds 1 to PC and the opcode's operand bytes to offset, so the next fetch moves 1 + those bytes on; offset never shrinks |
| Prototype.TickPastEnd | 6502.py:79-81 | a fetch index at or past the end of the ROM takes the End-of-ROM path and changes nothing |
| Prototype.OtherOpcodesOnlyStep | 6502.py:90-104 | an opcode other than 0xA9 and 0x8D only adds 1 to PC |
| Prototype.TwoZeroLoadsRestoreFlags | 6502.py:110-119 | loading 0 flips Zero, and loading 0 twice leaves every flag as it was |
| Prototype.LoadStoreProgram | 6502.py:75-125 | the program A9 05 8D 00 02 takes two ticks to AX = 5, PC = 2, offset = 3, then ends |
| PrototypeCpu.CPU.constructor | 6502.py:6-41 | registers and flags 0, SP the list [1, 0], not running, the ROM bytes given |
| PrototypeCpu.CPU.Lda | 6502.py:110-119 | updates the fields in place; the registers after are Prototype.Lda of those before |
| PrototypeCpu.CPU.Sta | 6502.py:123-125 | adds 2 to offset in place, as Prototype.Sta |
| PrototypeCpu.CPU.DecodeInstruction | 6502.py:90-104 | registers after and the End-of-ROM outcome are Prototype.Decode of those before |
| PrototypeCpu.CPU.Tick | 6502.py:75-84 | registers after and the status are Prototype.Tick of the ROM and the registers before |
| Util.Digits | util.py:9-15 | the digits of n in base 2 or 16: at least one, each one of the base's digit characters |
| Util.Bfmt | util.py:9-10 | for num >= 0 only '0'/'1', length max(size, bit length), reads back as num; exactly size characters for 0 <= num < 2^size; a negative num is '-' and its zero-filled magnitude |
| Util.Hfmt | util.py:13-15 | for num >= 0 only lower-case hex digits, length max(size, digit count), reads back as num; exactly size characters for 0 <= num < 16^size |
| Util.HfmtByte | util.py:13-15 | a byte formats as two hex characters that read back as the byte |
| Util.BfmtByte | util.py:9-10 | a byte formats as eight binary characters that read back as the byte |
| Util.DigitsValue | util.py:9-15 | the digit string reads back as the number it formats |
| Util.PaddedFormat | util.py:9-15 | zero padding after the sign keeps the value and gives length max(width, unpadded length) |
| Colors.Darkened | colors.py:31-40 | three components, each c - amount when that is above 0, else 0; never negative |
| Colors.Lightened | colors.py:43-52 | three components, each c + amount when that is below 255, else 255; never above 255 |
| Colors.Darken | colors.py:31-40 | the loop builds exactly Darkened(color, amount); the argument is not changed |
| Colors.Lighten | colors.py:43-52 | the loop builds exactly Lightened(color, amount); the argument is not changed |
| Colors.DarkenInGamut | colors.py:31-40 | a 0..255 colour darkened by amount >= 0 stays in 0..255 and no component increases |
| Colors.LightenInGamut | colors.py:43-52 | a 0..255 colour lightened by amount >= 0 stays in 0..255 and no component decreases |
| Colors.DarkenToBlack | colors.py:31-40 | darken gives (0, 0, 0) exactly when no component exceeds amount |
| Colors.LightenToWhite | colors.py:43-52 | lighten gives (255, 255, 255) exactly when every component + amount reaches 255 |
| Colors.LightenUndoesDarken | colors.py:31-52 | lightening by the amount a colour was darkened by restores it when darkening did not clip |
| Colors.Mixed | colors.py:55-71 | three components; (0, 0, 0) for an empty list |
| Colors.Mix | colors.py:55-71 | the nested loops build exactly Mixed(colors): per component, int(sum / len) of the whole list |
| Colors.MixSingle | colors.py:55-71 | mixing one colour gives that colour back |
| Colors.MixCopies | colors.py:55-71 | mixing n >= 1 copies of a colour gives it back, negative components included |
| Colors.MixInGamut | colors.py:55-71 | mixing colours in 0..255 gives a colour in 0..255 |
| Colors.SumOfCopies | colors.py:63-65 | the running sum over n copies of a colour is n times its component |

## Left out

- Terminal I/O is not modelled: `print`, `clear`, `input`, `exit`, `__repr__`, `dump_heap` and the register dump. A breakpoint's pause for Enter is modelled as `running` briefly going false and back to true, and `exit()` after End of ROM as `Tick` returning `EndOfRomReached`.
- On a heap with no cell 0xFE, the write at the start of `tick` raises an IndexError outside `decode_instruction`'s handler, and it escapes `tick` and ends the run. `Tick` reports this as `Crashed` with nothing changed; what happens to the run thread afterwards is not modelled.
- `run`, the `freq` timer thread, the mode and frequency settings and the console are not modelled. They drive `tick` repeatedly and own no state of the core.
- `randint(0, 255)` in `tick` is the parameter `rand`, because randomness is outside the model.
- `load_rom`'s file read in both emulators is outside the model. `Cpu.CPU.LoadRom` models the write loop over the bytes read, and `PrototypeCpu.CPU` takes the bytes in its constructor. The 0x64 written at 0xFF, and PC = 0x0600, set by `run` are not modelled either.
- `implicit` and `accumulator` have the same body as `implied` (they add nothing to `offset`), so `Addressing.Implied` and `Cpu.CPU.Implied` stand for all three.
- `lsr_zp`/`lsr_abs` and `dec_zp`/`dec_abs` have the same bodies, up to the operand bytes. They are one member each (`LsrMem`, `DecMem`), and the `Execute` functions pass the operand byte count.
- `cmp`, `cpx` and `cpy` share one flag function, `Instructions.Compare`. Their `_im`/`_zp` variants are functions of their own.
- The helper definitions listed above (`set_bit`, `check_bit`, `hcat`, `badd`, `bsub`, `decomp`) are not part of this model. `Bits` holds reconstructed definitions, and every property that mentions them depends on that reconstruction.
- Instructions.Sbc: states AX, Zero, Overflow and Negative. It does not state the Carry bit beyond "only Carry, Zero, Overflow and Negative may change", because the carry that `sbc` computes comes from the reconstructed `bsub`.
- Util.Hfmt: requires `size >= 0`. A negative width is not a valid format spec and raises ValueError, which is not modelled.
- Colors.Darken, Colors.Lighten, Colors.Mix: require each colour to have at least three entries. A shorter tuple raises IndexError, which is not modelled. Integer components are assumed: a float colour or amount, and float rounding in `mix` for sums beyond 2^53, are not modelled.
- Instructions.Brk: states the flags cell and, when SP and SP - 1 name different cells, the PC cell. When they name the same cell (a one-cell heap), the later write wins, and that case is not stated separately.
- Instructions.Rts: states the rebuilt PC only when SP + 1 and SP + 2 name different cells. With a one-cell heap they name the same cell, and that case is not stated.
- Registers are Python ints and are not masked. Contracts about bytes (`Adc`, `NegativeIffHigh`, `HfmtByte`) assume byte inputs where the source passes bytes.
