/** The iterations of a loop from `start` to `end` in steps of `step` (iter.c, taskloop.c). */
module Iterations {

  /** Division of C, which truncates toward zero. */
  function CDiv(a: int, b: int): int
    requires b != 0
  {
    if a >= 0 then (if b > 0 then a / b else -(a / -b)) else (if b > 0 then -(-a / b) else -a / -b)
  }

  /** The number of iterations as the source computes it. */
  function TripCount(start: int, end: int, step: int): int
    requires step != 0
  {
    CDiv(end - start + (if step > 0 then step - 1 else step + 1), step)
  }

  /** The value of the k-th iteration. */
  function Value(start: int, step: int, k: int): int {
    start + k * step
  }

  /** `x` comes before `bound` in the direction of the loop. */
  predicate Before(x: int, bound: int, step: int) {
    if step > 0 then x < bound else x > bound
  }

  /** The loop body of a part runs `x`: from `lo` on, before `hi`. */
  predicate Runs(lo: int, hi: int, step: int, x: int) {
    !Before(x, lo, step) && Before(x, hi, step)
  }

  lemma MulMono(a: int, b: int, c: nat)
    requires a <= b
    ensures a * c <= b * c
  {
  }

  lemma Cancel(a: int, b: int, c: nat)
    requires c > 0 && a * c < b * c
    ensures a < b
  {
  }

  lemma ValueOrder(start: int, step: int, j: int, k: int)
    requires step != 0
    ensures Before(Value(start, step, j), Value(start, step, k), step) <==> j < k
  {
    var m := if step > 0 then step else -step;
    assert k * step == if step > 0 then k * m else -(k * m);
    assert j * step == if step > 0 then j * m else -(j * m);
    if j < k {
      MulMono(j + 1, k, m);
      assert (j + 1) * m == j * m + m;
    } else {
      MulMono(k, j, m);
    }
  }

  lemma CeilBounds(d: nat, m: nat, k: int)
    requires m > 0
    ensures k * m < d <==> k < (d + m - 1) / m
  {
    var q, r := (d + m - 1) / m, (d + m - 1) % m;
    assert d + m - 1 == q * m + r;
    if k < q {
      MulMono(k + 1, q, m);
      assert (k + 1) * m == k * m + m;
    } else {
      MulMono(q, k, m);
    }
  }

  /** The count is right: exactly the iterations below it come before the end. */
  lemma TripCountExact(start: int, end: int, step: int, k: nat)
    requires step != 0 && Before(start, end, step)
    ensures TripCount(start, end, step) > 0
    ensures Before(Value(start, step, k), end, step) <==> k < TripCount(start, end, step)
  {
    var m := if step > 0 then step else -step;
    var d := if step > 0 then end - start else start - end;
    assert TripCount(start, end, step) == (d + m - 1) / m;
    assert k * step == if step > 0 then k * m else -(k * m);
    CeilBounds(d, m, k);
    CeilBounds(d, m, 0);
  }

  /** A part from iteration `a` up to iteration `b` runs those iterations. */
  lemma PartRuns(start: int, step: int, a: int, b: int, k: int)
    requires step != 0
    ensures Runs(Value(start, step, a), Value(start, step, b), step, Value(start, step, k)) <==> a <= k < b
  {
    ValueOrder(start, step, k, a);
    ValueOrder(start, step, k, b);
  }
}
