/** The arithmetic helpers and the growable stack of src/util.h. */
module Util {
  import opened Common

  /** The reference meaning of a saturating add: the true sum, clamped into
      0 .. INT64_MAX. */
  function ClampSum(a: int, b: int): int {
    if a + b < 0 then 0 else if a + b > INT64_MAX then INT64_MAX else a + b
  }

  /** adds64: when both operands are positive the sum is compared, in
      unsigned 64-bit arithmetic, with INT64_MAX; otherwise a negative sum
      becomes 0. The macro's comment asks that at least one operand is
      positive, which keeps the signed addition of the second branch from
      overflowing. */
  function Adds64(a: i64, b: i64): (r: i64)
    requires a > 0 || b > 0
    ensures r == ClampSum(a, b)
  {
    if a > 0 && b > 0 then
      // (uint64_t)a + (uint64_t)b: both are below 2^63, so the unsigned sum
      // cannot wrap.
      var usum := Wrap(a + b, TWO_64);
      if usum > INT64_MAX then INT64_MAX else a + b
    else if a + b < 0 then 0
    else a + b
  }

  /** dir_memsize: the offset of the name inside `struct dir`, which is fixed
      by the compiler and is a parameter here, plus the name and its NUL. */
  function DirMemsize(nameOffset: nat, name: string): (r: nat)
    ensures r == nameOffset + |CStr(name)| + 1
    ensures r > nameOffset
  {
    nameOffset + 1 + |CStr(name)|
  }

  /** dir_ext_offset: `(m + 7) & ~7`. Clearing the three low bits of a
      number subtracts its remainder modulo 8. The result is the smallest
      multiple of 8 that is not below m, so the extended record that follows
      the name is 8-byte aligned. */
  function ExtOffset(m: nat): (r: nat)
    ensures r % 8 == 0
    ensures m <= r < m + 8
  {
    var x := m + 7;
    x - x % 8
  }

  /** dir_ext_memsize: the aligned offset plus the size of `struct dir_ext`
      (a parameter, like the name offset). */
  function ExtMemsize(nameOffset: nat, name: string, extSize: nat): (r: nat)
    ensures DirMemsize(nameOffset, name) + extSize <= r < DirMemsize(nameOffset, name) + extSize + 8
    ensures (r - extSize) % 8 == 0
  {
    ExtOffset(DirMemsize(nameOffset, name)) + extSize
  }

  /** nstack_*: a stack in a heap buffer that doubles when it is full. */
  class NStack<T(0)> {
    var size: nat
    var top: nat
    var list: array<T>

    ghost predicate Valid()
      reads this
    {
      size == list.Length && 1 <= size && top <= size
    }

    /** The elements pushed and not popped, bottom first. */
    ghost function Contents(): seq<T>
      reads this, list
      requires Valid()
    {
      list[..top]
    }

    /** nstack_init: room for 10, empty. */
    constructor Init()
      ensures Valid() && fresh(list)
      ensures size == 10 && top == 0 && Contents() == []
    {
      size := 10;
      top := 0;
      list := new T[10];
    }

    /** nstack_push: double the buffer when it is full (size <= top), then
      store at list[top] and move top up. */
    method Push(v: T)
      requires Valid()
      modifies this, list
      ensures Valid() && (list == old(list) || fresh(list))
      ensures Contents() == old(Contents()) + [v]
      ensures old(size) <= old(top) ==> size == 2 * old(size)
      ensures old(size) > old(top) ==> size == old(size)
    {
      if size <= top {
        var grown := new T[2 * size];
        forall i | 0 <= i < top {
          grown[i] := list[i];
        }
        size := 2 * size;
        list := grown;
      }
      list[top] := v;
      top := top + 1;
    }

    /** nstack_pop: its callers only pop a non-empty stack. */
    method Pop()
      requires Valid() && top > 0
      modifies this
      ensures Valid() && list == old(list) && size == old(size)
      ensures Contents() == old(Contents())[..|old(Contents())| - 1]
    {
      top := top - 1;
    }

    /** nstack_top: the last element pushed, or the default when empty. */
    method Top(default: T) returns (r: T)
      requires Valid()
      ensures Contents() == [] ==> r == default
      ensures Contents() != [] ==> r == Contents()[|Contents()| - 1]
    {
      r := if top > 0 then list[top - 1] else default;
    }
  }
}
