/** The number and the values of the iterations of a loop in 64-bit words (iter.c, iter_ull.c, taskloop.c). */
module CountedLoops {
  import opened Iterations
  import opened Words

  /** A step is a word; an unsigned loop that counts down holds the step modulo 2^64. */
  predicate IsStep(signed: bool, step: int) {
    if signed then InWord(true, step) else -ULL < step < ULL
  }

  /** The bounds are words, the end is where the step leads, and the number of iterations can be computed
      without overflow, as section 2.6 of OpenMP 4.5 demands. */
  ghost predicate Countable(signed: bool, next: int, end: int, step: int) {
    && step != 0 && IsStep(signed, step) && InWord(signed, next) && InWord(signed, end) && !Before(end, next, step)
    && (if step > 0 then InWord(signed, end - next + step - 1)
        else if signed then InWord(signed, end - next + step + 1) else InWord(signed, next - end - step - 1))
  }

  lemma CountBounds(d: nat, m: nat)
    requires m > 0
    ensures var n := (d + m - 1) / m; n * m <= d + m - 1 && n <= d + m - 1 && (n == 0 <==> d == 0) && (n > 0 ==> (n - 1) * m < d)
  {
    var n := (d + m - 1) / m;
    CeilBounds(d, m, 0);
    CeilBounds(d, m, n - 1);
    MulMono(1, m, n);
    assert m * n == n * m;
  }

  /** Size of the step and of the whole loop. */
  function Abs(x: int): nat {
    if x < 0 then -x else x
  }

  lemma CountOf(signed: bool, next: int, end: int, step: int)
    requires Countable(signed, next, end, step)
    ensures var n := TripCount(next, end, step); 0 <= n < ULL && (n == 0 <==> next == end) && n * Abs(step) < ULL
    ensures var n := TripCount(next, end, step); n > 0 ==> (n - 1) * Abs(step) < Abs(end - next)
  {
    CountBounds(Abs(end - next), Abs(step));
  }

  lemma ValueBy(next: int, step: int, k: int)
    ensures Value(next, step, k) == if step > 0 then next + k * Abs(step) else next - k * Abs(step)
  {
  }

  /** Every iteration is a word. */
  lemma ValueInWord(signed: bool, next: int, end: int, step: int, k: nat)
    requires Countable(signed, next, end, step) && k < TripCount(next, end, step)
    ensures InWord(signed, Value(next, step, k))
  {
    CountOf(signed, next, end, step);
    ValueBy(next, step, k);
    MulMono(k, TripCount(next, end, step) - 1, Abs(step));
    MulMono(0, k, Abs(step));
  }

  /** The value after the last iteration is a word, or has gone around once and lies behind the start. */
  lemma ValueAfter(signed: bool, next: int, end: int, step: int, lo: nat)
    requires Countable(signed, next, end, step) && lo < TripCount(next, end, step)
    ensures var n := TripCount(next, end, step);
      !InWord(signed, Value(next, step, n)) ==> Before(Word(signed, Value(next, step, n)), Value(next, step, lo), step)
  {
    var n, m := TripCount(next, end, step), Abs(step);
    CountOf(signed, next, end, step);
    ValueBy(next, step, n);
    ValueBy(next, step, lo);
    MulMono(0, lo, m);
    MulMono(0, n, m);
    if !InWord(signed, Value(next, step, n)) { WordAround(signed, Value(next, step, n)); }
  }

  /** The number of iterations as the words of the source compute it. */
  function WordCount(signed: bool, next: int, end: int, step: int): int
    requires step != 0 && IsStep(signed, step)
  {
    if signed then CDiv(Word(true, Word(true, end - next) + (if step > 0 then step - 1 else step + 1)), step)
    else if step > 0 then Wrap(Wrap(end - next) + step - 1) / step
    else Wrap(Wrap(next - end) - step - 1) / -step
  }

  /** The words hold every intermediate result. */
  lemma WordCountExact(signed: bool, next: int, end: int, step: int)
    requires Countable(signed, next, end, step)
    ensures WordCount(signed, next, end, step) == TripCount(next, end, step)
  {
    if signed {
      WordHolds(true, end - next);
      WordHolds(true, end - next + (if step > 0 then step - 1 else step + 1));
    } else if step > 0 {
      WrapHolds(end - next);
      WrapHolds(end - next + step - 1);
    } else {
      WrapHolds(next - end);
      WrapHolds(next - end - step - 1);
    }
  }
}
