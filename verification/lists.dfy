/**
 * Python list semantics the emulator relies on: `s[i]` accepts
 * -len(s) <= i < len(s), a negative index counting from the end, and raises
 * IndexError otherwise; `s[i:j]` never raises and clamps both bounds.
 * Every list the emulator touches (the heap, the lookup table, a ROM image,
 * the three-byte instruction slice) is indexed through these functions.
 */
module Lists {

  /** `None` stands for a raised IndexError. */
  datatype Option<+T> = None | Some(value: T) {
    predicate IsFailure() { None? }

    function PropagateFailure<U>(): Option<U>
      requires None?
    {
      None
    }

    function Extract(): T
      requires Some?
    {
      value
    }
  }

  /** `s[i]` does not raise. */
  predicate InRange<T>(s: seq<T>, i: int) {
    -|s| <= i < |s|
  }

  /** The cell a valid index refers to: negative indices count from the end. */
  function Slot<T>(s: seq<T>, i: int): (k: nat)
    requires InRange(s, i)
    ensures k < |s|
    ensures i >= 0 ==> k == i
    ensures i < 0 ==> k == i + |s|
  {
    if i < 0 then i + |s| else i
  }

  /** `s[i]`, or None when it raises IndexError. */
  function Get<T>(s: seq<T>, i: int): Option<T> {
    if InRange(s, i) then Some(s[Slot(s, i)]) else None
  }

  /** `s[i] = v`: the updated list, or None when it raises IndexError. */
  function Set<T>(s: seq<T>, i: int, v: T): (r: Option<seq<T>>)
    ensures r.Some? <==> InRange(s, i)
    ensures r.Some? ==> |r.value| == |s| && Get(r.value, i) == Some(v)
    ensures r.Some? ==> forall j :: InRange(s, j) && Slot(s, j) != Slot(s, i) ==> Get(r.value, j) == Get(s, j)
  {
    if InRange(s, i) then Some(s[Slot(s, i) := v]) else None
  }

  /** How a slice bound is normalised against a list of length `n`. */
  function Clamp(n: nat, i: int): (k: nat)
    ensures k <= n
  {
    if i < 0 then (if i + n < 0 then 0 else i + n) else if i > n then n else i
  }

  /** `s[i:j]`: never raises; an empty list when the clamped bounds cross. */
  function Slice<T>(s: seq<T>, i: int, j: int): (r: seq<T>)
    ensures 0 <= i <= j ==> (r == [] <==> i >= |s| || j == i)
    ensures 0 <= i < j && i < |s| ==> |r| == (if j < |s| then j else |s|) - i && r[0] == s[i]
    ensures 0 <= i && j == i + 3 <= |s| ==> r == [s[i], s[i + 1], s[i + 2]]
  {
    var a, b := Clamp(|s|, i), Clamp(|s|, j);
    if a < b then s[a..b] else []
  }
}
