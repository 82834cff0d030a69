/**
 * The emulator's memory: a flat Python list of `address_space` cells,
 * created zeroed. `read`/`write`/`push`/`pop` index it directly, so negative
 * addresses wrap to the end of the list and anything else outside it raises
 * IndexError. The stack pointer lives with the CPU; `push` and `pop` only
 * touch the cell they are given, and `pop` clears it.
 */
module Ram {
  import opened Lists

  /** The number of cells `init_heap` appends: `range(0, n)` is empty for n <= 0. */
  function Size(addressSpace: int): nat {
    if addressSpace > 0 then addressSpace else 0
  }

  /** A heap of `n` zero cells. */
  function Zeros(n: nat): (s: seq<int>)
    ensures |s| == n
    ensures forall i :: 0 <= i < n ==> s[i] == 0
  {
    seq(n, _ => 0)
  }

  /** What `pop(sp)` returns and the heap it leaves behind, or None for IndexError. */
  function Popped(heap: seq<int>, sp: int): Option<(int, seq<int>)> {
    var v :- Get(heap, sp);
    var rest :- Set(heap, sp, 0);
    Some((v, rest))
  }

  class RAM {
    const dataWidth: int
    const addressSpace: int
    var heap: seq<int>

    /** The heap keeps the length it was created with. */
    ghost predicate Valid()
      reads this
    {
      |heap| == Size(addressSpace)
    }

    constructor (dataWidth: int := 8, addressSpace: int := 0x1_0000)
      ensures Valid()
      ensures this.dataWidth == dataWidth && this.addressSpace == addressSpace
      ensures heap == Zeros(Size(addressSpace))
    {
      this.dataWidth := dataWidth;
      this.addressSpace := addressSpace;
      heap := [];
      new;
      InitHeap();
    }

    /** Appends `address_space` zero cells, one at a time. */
    method InitHeap()
      modifies this
      ensures heap == old(heap) + Zeros(Size(addressSpace))
    {
      var i := 0;
      while i < addressSpace
        invariant 0 <= i <= Size(addressSpace)
        invariant heap == old(heap) + Zeros(i)
      {
        heap := heap + [0];
        i := i + 1;
      }
    }

    /** `push(data, sp)`: writes the cell `sp`; no pointer moves. */
    method Push(data: int, sp: int) returns (ok: bool)
      requires Valid()
      modifies this
      ensures Valid()
      ensures ok == InRange(old(heap), sp)
      ensures Set(old(heap), sp, data) == (if ok then Some(heap) else None)
      ensures !ok ==> heap == old(heap)
    {
      ok := InRange(heap, sp);
      if ok {
        heap := heap[Slot(heap, sp) := data];
      }
    }

    /** `pop(sp)`: returns the cell `sp` and sets it to zero. */
    method Pop(sp: int) returns (val: Option<int>)
      requires Valid()
      modifies this
      ensures Valid()
      ensures Popped(old(heap), sp) == (if val.Some? then Some((val.value, heap)) else None)
      ensures val.None? ==> heap == old(heap)
    {
      if !InRange(heap, sp) {
        return None;
      }
      val := Some(heap[Slot(heap, sp)]);
      heap := heap[Slot(heap, sp) := 0];
    }

    /** `write(addr, data)`. */
    method Write(addr: int, data: int) returns (ok: bool)
      requires Valid()
      modifies this
      ensures Valid()
      ensures ok == InRange(old(heap), addr)
      ensures Set(old(heap), addr, data) == (if ok then Some(heap) else None)
      ensures !ok ==> heap == old(heap)
    {
      ok := InRange(heap, addr);
      if ok {
        heap := heap[Slot(heap, addr) := data];
      }
    }

    /** `read(addr)`. */
    function Read(addr: int): (r: Option<int>)
      reads this
      ensures r.Some? <==> -|heap| <= addr < |heap|
      ensures 0 <= addr < |heap| ==> r == Some(heap[addr])
      ensures addr < 0 && r.Some? ==> r.value == heap[|heap| + addr]
    {
      Get(heap, addr)
    }
  }

  /** `read(a)` after `write(a, d)` gives `d`; every other cell reads as before. */
  lemma ReadAfterWrite(heap: seq<int>, a: int, d: int, b: int)
    requires InRange(heap, a)
    ensures Set(heap, a, d).Some?
    ensures Get(Set(heap, a, d).value, a) == Some(d)
    ensures InRange(heap, b) && Slot(heap, b) != Slot(heap, a) ==> Get(Set(heap, a, d).value, b) == Get(heap, b)
    ensures |Set(heap, a, d).value| == |heap|
  {
  }

  /** `pop` returns the cell and leaves it zero, so popping the same `sp` again gives 0. */
  lemma {:induction false} PopTwice(heap: seq<int>, sp: int)
    requires InRange(heap, sp)
    ensures Popped(heap, sp).Some?
    ensures Popped(heap, sp).value.0 == heap[Slot(heap, sp)]
    ensures |Popped(heap, sp).value.1| == |heap|
    ensures Popped(Popped(heap, sp).value.1, sp) == Some((0, Popped(heap, sp).value.1))
  {
    var rest := heap[Slot(heap, sp) := 0];
    assert rest[Slot(heap, sp) := 0] == rest;
  }

  /** `push(d, sp)` followed by `pop(sp)` returns `d` and leaves that cell zero. */
  lemma PushThenPop(heap: seq<int>, sp: int, d: int)
    requires InRange(heap, sp)
    ensures Set(heap, sp, d).Some?
    ensures Popped(Set(heap, sp, d).value, sp) == Some((d, heap[Slot(heap, sp) := 0]))
  {
    var pushed := heap[Slot(heap, sp) := d];
    assert pushed[Slot(heap, sp) := 0] == heap[Slot(heap, sp) := 0];
  }
}
