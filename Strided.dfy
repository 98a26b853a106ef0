/**
 * Strided vector addressing, `off + i*inc`, and the specification of the
 * glue's element loops as functions on sequences: a loop that visits the
 * logical positions 0..n-1 in order and rewrites each one, and a loop that
 * accumulates them.
 */
module Strided {

  /** Buffer index of logical element `i` of the vector (off, inc). */
  function Pos(off: nat, inc: nat, i: nat): nat
  {
    off + i * inc
  }

  /** Every logical element 0..n-1 lies inside a buffer of `len` elements. */
  predicate InRange(n: nat, off: nat, inc: nat, len: nat)
  {
    forall i: nat :: i < n ==> Pos(off, inc, i) < len
  }

  /** Buffer index `j` is one of the n logical positions. */
  ghost predicate Visited(n: nat, off: nat, inc: nat, j: nat)
  {
    exists i: nat :: i < n && Pos(off, inc, i) == j
  }

  /** Distinct logical positions have distinct indices as soon as the stride is positive. */
  predicate Distinct(n: nat, inc: nat)
  {
    inc > 0 || n <= 1
  }

  /** With a positive stride, later logical positions lie strictly further on. */
  lemma {:induction false} PosIncreasing(off: nat, inc: nat, i: nat, j: nat)
    requires inc > 0 && i < j
    ensures Pos(off, inc, i) < Pos(off, inc, j)
  {
    if i + 1 < j {
      PosIncreasing(off, inc, i, j - 1);
    }
    assert Pos(off, inc, j) == Pos(off, inc, j - 1) + inc;
  }

  /** `x` read at logical position `i`, 0.0 outside the buffer (only used where the position is in range). */
  function At(xs: seq<real>, off: nat, inc: nat, i: nat): real
  {
    if Pos(off, inc, i) < |xs| then xs[Pos(off, inc, i)] else 0.0
  }

  /** Step that combines the current value with the other vector's logical element i: `out = h(out, other)`. */
  function Zip(h: (real, real) -> real, other: seq<real>, off: nat, inc: nat): (nat, real) -> real
  {
    (i: nat, v: real) => h(v, At(other, off, inc, i))
  }

  /**
   * The loop `for i < k: s[off + i*inc] = g(i, s[off + i*inc])`, in order.
   * With stride 0 the same element is rewritten k times.
   */
  function Update(s: seq<real>, off: nat, inc: nat, k: nat, g: (nat, real) -> real): (r: seq<real>)
    requires InRange(k, off, inc, |s|)
    ensures |r| == |s|
    decreases k
  {
    if k == 0 then s
    else
      var t := Update(s, off, inc, k - 1, g);
      var p := Pos(off, inc, k - 1);
      t[p := g(k - 1, t[p])]
  }

  /** The loop never touches an index that is not one of its logical positions. */
  lemma {:induction false} UpdateFrame(s: seq<real>, off: nat, inc: nat, n: nat, g: (nat, real) -> real, j: nat)
    requires InRange(n, off, inc, |s|)
    requires j < |s| && !Visited(n, off, inc, j)
    ensures Update(s, off, inc, n, g)[j] == s[j]
  {
    if n > 0 {
      assert Pos(off, inc, n - 1) != j;
      UpdateFrame(s, off, inc, n - 1, g, j);
    }
  }

  /** With distinct positions, logical element i ends up as g applied once to its original value. */
  lemma {:induction false} UpdateAt(s: seq<real>, off: nat, inc: nat, n: nat, g: (nat, real) -> real, i: nat)
    requires InRange(n, off, inc, |s|)
    requires Distinct(n, inc) && i < n
    ensures Update(s, off, inc, n, g)[Pos(off, inc, i)] == g(i, s[Pos(off, inc, i)])
  {
    var p := Pos(off, inc, i);
    if i == n - 1 {
      if !Visited(n - 1, off, inc, p) {
        UpdateFrame(s, off, inc, n - 1, g, p);
      } else {
        var k: nat :| k < n - 1 && Pos(off, inc, k) == p;
        PosIncreasing(off, inc, k, i);
      }
    } else {
      PosIncreasing(off, inc, i, n - 1);
      UpdateAt(s, off, inc, n - 1, g, i);
    }
  }

  /** `sum += x[off + i*inc]` for i < n, starting from 0. */
  function StridedSum(s: seq<real>, off: nat, inc: nat, n: nat): real
    requires InRange(n, off, inc, |s|)
  {
    if n == 0 then 0.0 else StridedSum(s, off, inc, n - 1) + s[Pos(off, inc, n - 1)]
  }

  /** The sum reads nothing but the n logical positions: buffers that agree there have the same sum. */
  lemma {:induction false} SumReadsOnlyPositions(s: seq<real>, t: seq<real>, off: nat, inc: nat, n: nat)
    requires InRange(n, off, inc, |s|) && InRange(n, off, inc, |t|)
    requires forall i: nat :: i < n ==> s[Pos(off, inc, i)] == t[Pos(off, inc, i)]
    ensures StridedSum(s, off, inc, n) == StridedSum(t, off, inc, n)
  {
    if n > 0 {
      SumReadsOnlyPositions(s, t, off, inc, n - 1);
    }
  }
}
