/**
 * The CPU's register file and its memory, as one value. Every instruction of
 * the interpreter is specified as a function from one such value to the next;
 * `Exec` carries a raised IndexError together with the state at the moment it
 * was raised, since the statements before the failing access have already run.
 */
module MachineState {
  import opened Lists
  import Ram

  /**
   * AX, X, Y, SP, PC, flags: the registers, as unbounded Python integers;
   * offset: operand bytes consumed by the current instruction, added to PC
   * at the start of the next tick; heap: the RAM's cells.
   */
  datatype Machine = Machine(AX: int, X: int, Y: int, SP: int, PC: int, flags: int, offset: int, heap: seq<int>)

  /** A step that completed with a result `v`, or raised IndexError in state `m`. */
  datatype Exec<T> = Ok(m: Machine, v: T) | Raised(m: Machine)

  /** A completed instruction body. */
  function Done(m: Machine): Exec<()> {
    Ok(m, ())
  }

  /** `self.ram.read(addr)`. */
  function Read(m: Machine, addr: int): Option<int> {
    Get(m.heap, addr)
  }

  /** The cell a valid index refers to. */
  function Cell(m: Machine, addr: int): int
    requires InRange(m.heap, addr)
  {
    m.heap[Slot(m.heap, addr)]
  }

  /**
   * `after` is `before` with the cell `addr` refers to holding `d`: same
   * length, that cell reads back `d`, every other cell as it was.
   */
  ghost predicate Stored(before: seq<int>, after: seq<int>, addr: int, d: int) {
    && |after| == |before|
    && InRange(before, addr)
    && Get(after, addr) == Some(d)
    && forall j :: InRange(before, j) && Slot(before, j) != Slot(before, addr) ==> Get(after, j) == Get(before, j)
  }

  /** `self.ram.write(addr, d)` and `self.ram.push(d, addr)`. */
  function Write(m: Machine, addr: int, d: int): (r: Option<Machine>)
    ensures r.Some? <==> InRange(m.heap, addr)
    ensures r.Some? ==> r.value == m.(heap := r.value.heap) && Stored(m.heap, r.value.heap, addr, d)
  {
    var heap :- Set(m.heap, addr, d);
    Some(m.(heap := heap))
  }

  /** `self.ram.pop(sp)`: the cell's value and the state with that cell cleared. */
  function Pop(m: Machine, sp: int): (r: Option<(int, Machine)>)
    ensures r.Some? <==> InRange(m.heap, sp)
    ensures r.Some? ==> Read(m, sp) == Some(r.value.0)
    ensures r.Some? ==> r.value.1 == m.(heap := r.value.1.heap) && Stored(m.heap, r.value.1.heap, sp, 0)
  {
    var popped :- Ram.Popped(m.heap, sp);
    Some((popped.0, m.(heap := popped.1)))
  }
}
