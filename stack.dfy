/** A growable stack of fixed-size elements, as in lib/src/stack.c.
  *
  * The C buffer is `size` bytes of raw storage in which the first
  * `length * elsize` bytes hold the elements; here the elements are a
  * sequence and `size` is kept as the byte count the C code maintains, so
  * the grow and shrink decisions are exactly the ones the C code makes. */
module GrowableStack {

  /** STACK_DEFAULT_LEN: how many elements a fresh stack has room for. */
  const DefaultLen: nat := 16

  function Pow2(e: nat): (r: nat)
    ensures r >= 1
  {
    if e == 0 then 1 else 2 * Pow2(e - 1)
  }

  /** Pow2 at the exponents the shrink guard needs. */
  lemma {:induction false} Pow2Facts(e: nat)
    ensures e <= 4 ==> Pow2(e) <= 16
    ensures e >= 2 ==> Pow2(e) == 4 * Pow2(e - 2)
  {
    if e >= 1 {
      Pow2Facts(e - 1);
    }
  }

  /** Multiplying by a positive element size preserves strict order. */
  lemma MulOrder(a: int, b: int, c: int)
    requires c > 0
    ensures a < b <==> a * c < b * c
  {
    assert b * c - a * c == (b - a) * c;
  }

  /** The byte arithmetic of a push: one more element still fits, in the
    * buffer as it is when it was not full, and in the doubled one when it was. */
  lemma PushFits(len: nat, el: int, p: nat)
    requires el > 0 && p >= 1 && len * el <= el * p
    ensures len * el < el * p ==> (len + 1) * el <= el * p
    ensures len * el >= el * p ==> (len + 1) * el <= el * (2 * p)
  {
    assert el * p == p * el;
    MulOrder(len, p, el);
    assert (len + 1) * el == len * el + el;
    assert el * (2 * p) == el * p + el * p;
    MulOrder(0, p, el);
    if len + 1 < p {
      MulOrder(len + 1, p, el);
    }
  }

  /** The byte arithmetic of a shrink: at least four elements filling under a
    * quarter of the buffer mean it holds at least 32 elements' worth, so a
    * quarter of it is exact and at least eight elements' worth. */
  lemma ShrinkExact(len: nat, el: int, e: nat)
    requires el > 0 && len >= 4 && len * el < (el * Pow2(e)) / 4
    ensures e >= 5 && (el * Pow2(e)) / 4 == el * Pow2(e - 2)
  {
    Pow2Facts(e);
    MulOrder(3, len, el);
    assert 16 * el < el * Pow2(e);
    MulOrder(16, Pow2(e), el);
    assert el * Pow2(e) == 4 * (el * Pow2(e - 2));
  }

  class Stack<T> {
    /** The elements, bottom first; `|elems|` is the C field `length`. */
    var elems: seq<T>
    /** The capacity of the buffer, in bytes. */
    var size: int
    /** The size of one element, in bytes. */
    const elsize: int
    /** `size` is `elsize` times two to the power `scale`. */
    ghost var scale: nat

    /** The object invariant: the elements fit in the buffer, and the buffer
      * is a power-of-two number of elements, at least eight of them. */
    ghost predicate Valid()
      reads this
    {
      elsize > 0 && scale >= 3 && size == elsize * Pow2(scale) && |elems| * elsize <= size
    }

    constructor (elsize: int)
      requires elsize > 0
      ensures Valid()
      ensures elems == [] && size == DefaultLen * elsize && this.elsize == elsize
    {
      this.elsize := elsize;
      elems := [];
      size := DefaultLen * elsize;
      scale := 4;
    }

    /** stack_create: a stack with room for DefaultLen elements; `ok` is
      * whether malloc returned storage, which `allocOk` decides. */
    static method Create(elsize: int, allocOk: bool) returns (s: Stack<T>, ok: bool)
      requires elsize > 0
      ensures fresh(s) && s.Valid()
      ensures s.elems == [] && s.size == DefaultLen * elsize && s.elsize == elsize
      ensures ok == allocOk
    {
      s := new Stack<T>(elsize);
      ok := allocOk;
    }

    /** stack_push. When the buffer is full its size is doubled first; if the
      * reallocation fails (`allocOk` false) the doubled size stays but
      * nothing is appended. */
    method Push(item: T, allocOk: bool) returns (ok: bool)
      requires Valid()
      modifies this
      ensures Valid()
      ensures size == if old(|elems|) * elsize >= old(size) then 2 * old(size) else old(size)
      ensures ok == (old(|elems|) * elsize < old(size) || allocOk)
      ensures elems == if ok then old(elems) + [item] else old(elems)
    {
      PushFits(|elems|, elsize, Pow2(scale));
      if |elems| * elsize >= size {
        size := size * 2;
        scale := scale + 1;
        if !allocOk {
          return false;
        }
      }
      elems := elems + [item];
      return true;
    }

    /** stack_pop: -1 on an empty stack, which is left as it was and `out`
      * is the caller's `item` untouched. Otherwise the last element is
      * removed and returned; then, if at least DefaultLen / 4 elements remain
      * and they fill less than a quarter of the buffer, the size is divided
      * by four, and a failed reallocation makes the result 0 although the
      * element has been popped and the size reduced. */
    method Pop(item: T, allocOk: bool) returns (r: int, out: T)
      requires Valid()
      modifies this
      ensures Valid()
      ensures |elems| * elsize < size
      ensures old(elems) == [] ==> r == -1 && out == item && elems == [] && size == old(size)
      ensures old(elems) != [] ==>
        out == old(elems)[|old(elems)| - 1] && elems == old(elems)[..|old(elems)| - 1]
      ensures old(elems) != [] ==>
        var shrink := |elems| >= DefaultLen / 4 && |elems| * elsize < old(size) / 4;
        size == (if shrink then old(size) / 4 else old(size)) &&
        r == (if shrink && !allocOk then 0 else 1)
    {
      if |elems| == 0 {
        return -1, item;
      }
      out := elems[|elems| - 1];
      elems := elems[..|elems| - 1];
      if |elems| >= DefaultLen / 4 && |elems| * elsize < size / 4 {
        ShrinkExact(|elems|, elsize, scale);
        size := size / 4;
        scale := scale - 2;
        if !allocOk {
          return 0, out;
        }
      }
      return 1, out;
    }
  }

  /** A successful push followed by a pop gives back the pushed item and
    * leaves the elements as they were before the push. */
  method PushThenPop<T>(st: Stack<T>, x: T, y: T, allocPush: bool, allocPop: bool)
    returns (pushed: bool, r: int, out: T)
    requires st.Valid()
    modifies st
    ensures st.Valid()
    ensures pushed ==> r != -1 && out == x && st.elems == old(st.elems)
    ensures !pushed ==> st.elems == old(st.elems)
  {
    pushed := st.Push(x, allocPush);
    out := y;
    r := -1;
    if pushed {
      r, out := st.Pop(y, allocPop);
    }
  }
}
