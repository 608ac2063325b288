/** A loop as its work share stores it, in 64-bit words (loop.c, loop_ull.c), and what it means to hand out its
    iterations rightly. */
module LoopWords {
  import opened BitFields
  import opened Words
  import opened Iterations
  import opened HandOut

  /** The fields of struct gomp_work_share that the dynamic and guided schedules use: of long (`signed`) or of
      unsigned long long. `up` is the direction, `fast` the mode that allows fetch and add. A decreasing unsigned
      loop stores increment and chunk in two's complement. */
  datatype Loop = Loop(signed: bool, up: bool, start: int, end: int, incr: int, chunkSize: int, fast: bool)

  /** The increment as an integer, its size, and the length of the loop. */
  function Step(l: Loop): int {
    if l.signed || l.up then l.incr else l.incr - ULL
  }

  function Dist(l: Loop): nat {
    if Step(l) < 0 then -Step(l) else Step(l)
  }

  function Length(l: Loop): int {
    if l.up then l.end - l.start else l.start - l.end
  }

  /** The chunk size as a distance in the direction of the loop. */
  function Size(l: Loop): int {
    if l.up then l.chunkSize else if l.signed then -l.chunkSize else Wrap(0 - l.chunkSize)
  }

  /** The value of ws->next at a position. */
  function ValueAt(l: Loop, pos: int): int {
    if l.up then l.start + pos else l.start - pos
  }

  ghost predicate Valid(l: Loop) {
    && InWord(l.signed, l.start) && InWord(l.signed, l.end) && InWord(l.signed, l.incr) && InWord(l.signed, l.chunkSize)
    && l.incr != 0 && Step(l) != 0 && (l.up <==> Step(l) > 0) && 0 <= Length(l) && (l.signed ==> Length(l) <= LONG_MAX)
  }

  // ---------- Initialisation ----------

  /** The mode gomp_loop_init computes: the chunk is small and (nthreads + 1) of them fit beyond the end. */
  function LongMode(up: bool, end: int, scaled: int, nthreads: nat): bool {
    if up then Or(nthreads, Wrap(scaled)) < Pow2(31) && end < LONG_MAX - Times(nthreads + 1, scaled)
    else Or(nthreads, Wrap(0 - scaled)) < Pow2(31) && end > Times(nthreads + 1, -scaled) - LONG_MAX
  }

  /** gomp_loop_init with GFS_DYNAMIC: canonical end, chunk times increment, and the overflow-safe mode. */
  function LoopInit(start: int, end: int, incr: int, chunk: int, nthreads: nat): Loop {
    var end1 := if (incr > 0 && start > end) || (incr < 0 && start < end) then start else end;
    var scaled := Word(true, Times(chunk, incr));
    Loop(true, incr > 0, start, end1, incr, scaled, LongMode(incr > 0, end1, scaled, nthreads))
  }

  /** The fast bit of gomp_loop_ull_init. */
  function UllMode(up: bool, end: nat, scaled: nat, nthreads: nat): bool {
    if up then Or(nthreads, scaled) < Pow2(31) && end < Wrap(ULL - 1 - Times(nthreads + 1, scaled))
    else Or(nthreads, Wrap(0 - scaled)) < Pow2(31) && end > Wrap(Times(nthreads + 1, Wrap(0 - scaled)) - (ULL - 1))
  }

  /** gomp_loop_ull_init with GFS_DYNAMIC. */
  function UllInit(up: bool, start: nat, end: nat, incr: nat, chunk: nat, nthreads: nat): Loop {
    var end1 := if (up && start > end) || (!up && start < end) then start else end;
    var scaled := Wrap(Times(chunk, incr));
    Loop(false, up, start, end1, incr, scaled, UllMode(up, end1, scaled, nthreads))
  }

  lemma LoopInitValid(start: int, end: int, incr: int, chunk: int, n: nat)
    requires InWord(true, start) && InWord(true, end) && InWord(true, incr) && incr != 0 && -LONG_MAX <= end - start <= LONG_MAX
    ensures Valid(LoopInit(start, end, incr, chunk, n))
  {
  }

  lemma UllInitValid(up: bool, start: nat, end: nat, incr: nat, chunk: nat, n: nat)
    requires start < ULL && end < ULL && 0 < incr < ULL
    ensures Valid(UllInit(up, start, end, incr, chunk, n))
  {
  }

  /** There is room for (nthreads + 1) chunks beyond the end. */
  ghost predicate Roomy(l: Loop, n: nat) {
    && 0 <= Size(l) < ULL
    && InWord(l.signed, ValueAt(l, Length(l) + Times(n + 1, Size(l))))
  }

  lemma Pow2At31()
    ensures Pow2(31) == 0x8000_0000
  {
    assert Pow2(4) == 16;
    Pow2Sum(4, 4);
    Pow2Sum(8, 8);
    Pow2Sum(16, 8);
    Pow2Sum(24, 4);
    assert Pow2(31) == 2 * Pow2(30) == 4 * Pow2(29) == 8 * Pow2(28);
  }

  /** The cheap test: when the or of thread count and chunk is below 2^31, the bound the mode is computed from
      does not itself overflow. */
  lemma BoundComputable(n: nat, c: nat)
    requires Or(n, c) < Pow2(31)
    ensures c < 0x8000_0000 && 0 <= Times(n + 1, c) <= LONG_MAX
  {
    OrReaches(n, c, 31);
    Pow2At31();
    TimesMono(n + 1, 0x8000_0000, c);
    TimesStep(n + 1, c);
  }

  lemma LongModeRoom(up: bool, end: int, scaled: int, n: nat)
    requires InWord(true, end) && InWord(true, scaled) && LongMode(up, end, scaled, n)
    ensures var c := if up then scaled else -scaled;
      0 <= c < ULL && InWord(true, if up then end + Times(n + 1, c) else end - Times(n + 1, c))
  {
    if up { SmallChunk(n, scaled); } else { SmallChunk(n, 0 - scaled); }
  }

  lemma SmallWord(c: int)
    requires -LONG_MAX - 1 <= c <= LONG_MAX + 1 && Wrap(c) < 0x8000_0000
    ensures c == Wrap(c)
  {
  }

  lemma SmallChunk(n: nat, c: int)
    requires -LONG_MAX - 1 <= c <= LONG_MAX + 1 && Or(n, Wrap(c)) < Pow2(31)
    ensures 0 <= c < 0x8000_0000 && 0 <= Times(n + 1, c) <= LONG_MAX
  {
    BoundComputable(n, Wrap(c));
    SmallWord(c);
  }

  /** The fast mode of a signed loop guarantees that much room. */
  lemma FastIsRoomy(start: int, end: int, incr: int, chunk: int, n: nat)
    requires InWord(true, start) && InWord(true, end) && incr != 0 && LoopInit(start, end, incr, chunk, n).fast
    ensures Roomy(LoopInit(start, end, incr, chunk, n), n)
  {
    var l := LoopInit(start, end, incr, chunk, n);
    LongModeRoom(l.up, l.end, l.chunkSize, n);
  }

  /** The fast bit of an unsigned loop, too. */
  lemma UllFastIsRoomy(up: bool, start: nat, end: nat, incr: nat, chunk: nat, n: nat)
    requires start < ULL && end < ULL && UllInit(up, start, end, incr, chunk, n).fast
    ensures Roomy(UllInit(up, start, end, incr, chunk, n), n)
  {
    var l := UllInit(up, start, end, incr, chunk, n);
    UllModeRoom(up, l.end, l.chunkSize, n);
  }

  lemma UllModeRoom(up: bool, end: nat, scaled: nat, n: nat)
    requires end < ULL && scaled < ULL && UllMode(up, end, scaled, n)
    ensures var c := if up then scaled else Wrap(0 - scaled);
      InWord(false, if up then end + Times(n + 1, c) else end - Times(n + 1, c))
  {
    var c := if up then scaled else Wrap(0 - scaled);
    BoundComputable(n, c);
    UllBound(end, Times(n + 1, c));
  }

  lemma UllBound(end: nat, b: int)
    requires 0 <= b <= LONG_MAX
    ensures end < Wrap(ULL - 1 - b) ==> end + b < ULL - 1
    ensures end > Wrap(b - (ULL - 1)) ==> end > b + 1
  {
  }

  lemma OrSmall(n: nat, c: nat)
    ensures Or(n, c) < Pow2(31) <==> n < 0x8000_0000 && c < 0x8000_0000
  {
    OrReaches(n, c, 31);
    Pow2At31();
  }

  /** Exactly when the fast mode is set: thread count and chunk are below 2^31, the chunk leads forward, and
      nthreads + 1 chunks beyond the end are representable, with one value to spare. */
  lemma FastExact(start: int, end: int, incr: int, chunk: int, n: nat)
    requires incr != 0
    ensures var l := LoopInit(start, end, incr, chunk, n);
      l.fast <==> n < 0x8000_0000 && 0 <= Size(l) < 0x8000_0000
                  && (if incr > 0 then l.end + Times(n + 1, Size(l)) < LONG_MAX else l.end - Times(n + 1, Size(l)) > -LONG_MAX)
  {
    var l := LoopInit(start, end, incr, chunk, n);
    LongSmall(n, Size(l));
  }

  lemma LongSmall(n: nat, c: int)
    requires -LONG_MAX - 1 <= c <= LONG_MAX + 1
    ensures Or(n, Wrap(c)) < Pow2(31) <==> n < 0x8000_0000 && 0 <= c < 0x8000_0000
  {
    OrSmall(n, Wrap(c));
    if Wrap(c) < 0x8000_0000 { SmallWord(c); }
  }

  lemma UllFastExact(up: bool, start: nat, end: nat, incr: nat, chunk: nat, n: nat)
    requires start < ULL && end < ULL
    ensures var l := UllInit(up, start, end, incr, chunk, n);
      l.fast <==> n < 0x8000_0000 && Size(l) < 0x8000_0000
                  && (if up then l.end + Times(n + 1, Size(l)) < ULL - 1 else l.end - Times(n + 1, Size(l)) > 1)
  {
    var l := UllInit(up, start, end, incr, chunk, n);
    UllModeExact(up, l.end, l.chunkSize, n, Size(l));
  }

  lemma UllModeExact(up: bool, end: nat, scaled: nat, n: nat, c: nat)
    requires end < ULL && scaled < ULL && c == if up then scaled else Wrap(0 - scaled)
    ensures UllMode(up, end, scaled, n) <==>
      n < 0x8000_0000 && c < 0x8000_0000 && (if up then end + Times(n + 1, c) < ULL - 1 else end - Times(n + 1, c) > 1)
  {
    OrSmall(n, c);
    if Or(n, c) < Pow2(31) {
      BoundComputable(n, c);
      UllBoundExact(end, Times(n + 1, c));
    }
  }

  lemma UllBoundExact(end: nat, b: int)
    requires 0 <= b <= LONG_MAX
    ensures end < Wrap(ULL - 1 - b) <==> end + b < ULL - 1
    ensures end > Wrap(b - (ULL - 1)) <==> end > b + 1
  {
  }

  // ---------- Iterations and ranges ----------

  /** The range of loop values that a thread is given. */
  datatype Part = Part(lo: int, hi: int)

  predicate Iteration(l: Loop, k: nat) {
    k * Dist(l) < Length(l)
  }

  /** The loop body for this range runs iteration `k`. */
  predicate RunsIt(l: Loop, r: Part, k: nat) {
    Runs(r.lo, r.hi, Step(l), Value(l.start, Step(l), k))
  }

  /** The range begins at an iteration, runs it, and does not pass the end. */
  ghost predicate RangeOk(l: Loop, r: Part) {
    && (exists k: nat :: Iteration(l, k) && r.lo == Value(l.start, Step(l), k))
    && Runs(r.lo, r.hi, Step(l), r.lo) && !Before(l.end, r.hi, Step(l))
  }

  /** No iteration is run twice. */
  ghost predicate Disjoint(l: Loop, ranges: seq<Part>) {
    forall i, j, k: nat :: 0 <= i < j < |ranges| ==> !(RunsIt(l, ranges[i], k) && RunsIt(l, ranges[j], k))
  }

  ghost predicate Right(l: Loop, ranges: seq<Part>) {
    (forall i :: 0 <= i < |ranges| ==> RangeOk(l, ranges[i])) && Disjoint(l, ranges)
  }

  ghost predicate SomeRuns(l: Loop, ranges: seq<Part>, k: nat) {
    exists i :: 0 <= i < |ranges| && RunsIt(l, ranges[i], k)
  }

  /** Every iteration is run. */
  ghost predicate AllRun(l: Loop, ranges: seq<Part>) {
    forall k: nat :: Iteration(l, k) ==> SomeRuns(l, ranges, k)
  }

  /** The iterations are those of the loop statement. */
  lemma IterationIs(l: Loop, k: nat)
    requires Valid(l)
    ensures Iteration(l, k) <==> Before(Value(l.start, Step(l), k), l.end, Step(l))
    ensures Value(l.start, Step(l), k) == ValueAt(l, k * Dist(l))
  {
    assert k * Step(l) == if l.up then k * Dist(l) else -(k * Dist(l));
  }

  function RangeOf(l: Loop, c: Chunk): Part {
    Part(ValueAt(l, c.lo), ValueAt(l, c.hi))
  }

  function RangesOf(l: Loop, handed: seq<Chunk>): (r: seq<Part>)
    ensures |r| == |handed| && forall i :: 0 <= i < |r| ==> r[i] == RangeOf(l, handed[i])
  {
    seq(|handed|, i requires 0 <= i < |handed| => RangeOf(l, handed[i]))
  }

  lemma RunsPositions(l: Loop, c: Chunk, k: nat)
    requires Valid(l)
    ensures RunsIt(l, RangeOf(l, c), k) <==> Holds(c, k * Dist(l))
  {
    IterationIs(l, k);
  }

  lemma StepAt(l: Loop, pos: int)
    requires Valid(l) && pos >= 0 && pos % Dist(l) == 0
    ensures pos / Dist(l) >= 0 && pos / Dist(l) * Dist(l) == pos
    ensures Value(l.start, Step(l), pos / Dist(l)) == ValueAt(l, pos)
  {
    IterationIs(l, pos / Dist(l));
  }

  lemma ChunkRight(l: Loop, c: Chunk)
    requires Valid(l) && 0 <= c.lo < c.hi <= Length(l) && c.lo % Dist(l) == 0
    ensures RangeOk(l, RangeOf(l, c))
  {
    var k := c.lo / Dist(l);
    StepAt(l, c.lo);
    assert Iteration(l, k);
  }

  /** Between two steps there is no iteration. */
  lemma BetweenSteps(l: Loop, pos: int, hi: int)
    requires Valid(l) && pos % Dist(l) != 0
    ensures !RangeOk(l, Part(ValueAt(l, pos), hi))
  {
    forall k: nat ensures Value(l.start, Step(l), k) != ValueAt(l, pos) {
      IterationIs(l, k);
      ExactMultiple(k, Dist(l));
    }
  }

  /** Chunks that lie end to end and begin at steps hand out the iterations rightly. */
  lemma AccountRight(l: Loop, handed: seq<Chunk>, upto: int)
    requires Valid(l) && EndToEnd(handed, upto) && upto <= Length(l)
    requires forall i :: 0 <= i < |handed| ==> handed[i].lo >= 0 && handed[i].lo % Dist(l) == 0
    ensures Right(l, RangesOf(l, handed))
    ensures upto == Length(l) ==> AllRun(l, RangesOf(l, handed))
  {
    var ranges := RangesOf(l, handed);
    forall i | 0 <= i < |ranges| ensures RangeOk(l, ranges[i]) {
      if i < |handed| - 1 { Ordered(handed, upto, i, |handed| - 1); }
      ChunkRight(l, handed[i]);
    }
    forall i, j, k: nat | 0 <= i < j < |ranges| ensures !(RunsIt(l, ranges[i], k) && RunsIt(l, ranges[j], k)) {
      Ordered(handed, upto, i, j);
      RunsPositions(l, handed[i], k);
      RunsPositions(l, handed[j], k);
    }
    if upto == Length(l) {
      forall k: nat | Iteration(l, k) ensures SomeRuns(l, ranges, k) {
        var i := Found(handed, upto, k * Dist(l), |handed| - 1);
        RunsPositions(l, handed[i], k);
        assert RunsIt(l, ranges[i], k);
      }
    }
  }

  // ---------- The loop statement ----------

  /** `start + k * step` is an iteration of `for (i = start; i < end; i += step)`, or with > for a negative step. */
  predicate InLoop(start: int, end: int, step: int, k: nat) {
    Before(Value(start, step, k), end, step)
  }

  /** The range begins at an iteration of the statement, runs it, and does not pass the end. */
  ghost predicate RangeFor(start: int, end: int, step: int, r: Part) {
    && (exists k: nat :: InLoop(start, end, step, k) && r.lo == Value(start, step, k))
    && Runs(r.lo, r.hi, step, r.lo) && !Before(end, r.hi, step)
  }

  ghost predicate DisjointFor(start: int, step: int, ranges: seq<Part>) {
    forall i, j, k: nat :: 0 <= i < j < |ranges| ==>
      !(Runs(ranges[i].lo, ranges[i].hi, step, Value(start, step, k)) && Runs(ranges[j].lo, ranges[j].hi, step, Value(start, step, k)))
  }

  ghost predicate RightFor(start: int, end: int, step: int, ranges: seq<Part>) {
    (forall i :: 0 <= i < |ranges| ==> RangeFor(start, end, step, ranges[i])) && DisjointFor(start, step, ranges)
  }

  ghost predicate SomeRunsFor(start: int, step: int, ranges: seq<Part>, k: nat) {
    exists i :: 0 <= i < |ranges| && Runs(ranges[i].lo, ranges[i].hi, step, Value(start, step, k))
  }

  /** Every iteration of the statement is run. */
  ghost predicate AllRunFor(start: int, end: int, step: int, ranges: seq<Part>) {
    forall k: nat :: InLoop(start, end, step, k) ==> SomeRunsFor(start, step, ranges, k)
  }

  /** The stored end is the end of the statement, or the start if there is no iteration. */
  predicate EndsAt(l: Loop, end: int) {
    if Before(l.start, end, Step(l)) then l.end == end else Length(l) == 0
  }

  /** The iterations of the stored loop are those of the statement. */
  lemma IterationFor(l: Loop, end: int, k: nat)
    requires Valid(l) && EndsAt(l, end)
    ensures Iteration(l, k) <==> InLoop(l.start, end, Step(l), k)
  {
    IterationIs(l, k);
    if !Before(l.start, end, Step(l)) { MulMono(0, k, Dist(l)); }
  }

  lemma LoopInitFor(start: int, end: int, incr: int, chunk: int, n: nat)
    requires InWord(true, start) && InWord(true, end) && InWord(true, incr) && incr != 0 && -LONG_MAX <= end - start <= LONG_MAX
    ensures var l := LoopInit(start, end, incr, chunk, n);
      && l.start == start && Step(l) == incr && EndsAt(l, end)
      && forall k: nat :: Iteration(l, k) <==> InLoop(start, end, incr, k)
  {
    var l := LoopInit(start, end, incr, chunk, n);
    LoopInitValid(start, end, incr, chunk, n);
    forall k: nat ensures Iteration(l, k) <==> InLoop(start, end, incr, k) { IterationFor(l, end, k); }
  }

  /** A decreasing unsigned loop holds its step modulo 2^64. */
  function UllStep(up: bool, incr: nat): int {
    if up then incr else incr - ULL
  }

  lemma UllInitFor(up: bool, start: nat, end: nat, incr: nat, chunk: nat, n: nat)
    requires start < ULL && end < ULL && 0 < incr < ULL
    ensures var l := UllInit(up, start, end, incr, chunk, n);
      && l.start == start && Step(l) == UllStep(up, incr) && EndsAt(l, end)
      && forall k: nat :: Iteration(l, k) <==> InLoop(start, end, UllStep(up, incr), k)
  {
    var l := UllInit(up, start, end, incr, chunk, n);
    UllInitValid(up, start, end, incr, chunk, n);
    forall k: nat ensures Iteration(l, k) <==> InLoop(start, end, UllStep(up, incr), k) { IterationFor(l, end, k); }
  }

  lemma RangeForIs(l: Loop, end: int, r: Part)
    requires Valid(l) && EndsAt(l, end)
    ensures RangeOk(l, r) <==> RangeFor(l.start, end, Step(l), r)
  {
    if RangeOk(l, r) {
      var k: nat :| Iteration(l, k) && r.lo == Value(l.start, Step(l), k);
      IterationFor(l, end, k);
      LongerThanNone(l, k);
    }
    if RangeFor(l.start, end, Step(l), r) {
      var k: nat :| InLoop(l.start, end, Step(l), k) && r.lo == Value(l.start, Step(l), k);
      IterationFor(l, end, k);
      LongerThanNone(l, k);
    }
  }

  lemma LongerThanNone(l: Loop, k: nat)
    requires Valid(l) && Iteration(l, k)
    ensures Length(l) > 0
  {
    MulMono(0, k, Dist(l));
  }

  /** Being right for the stored loop is being right for the statement. */
  lemma StatementIs(l: Loop, end: int, ranges: seq<Part>)
    requires Valid(l) && EndsAt(l, end)
    ensures Right(l, ranges) <==> RightFor(l.start, end, Step(l), ranges)
    ensures AllRun(l, ranges) <==> AllRunFor(l.start, end, Step(l), ranges)
  {
    forall i | 0 <= i < |ranges| ensures RangeOk(l, ranges[i]) <==> RangeFor(l.start, end, Step(l), ranges[i]) {
      RangeForIs(l, end, ranges[i]);
    }
    DisjointForIs(l, ranges);
    forall k: nat ensures Iteration(l, k) <==> InLoop(l.start, end, Step(l), k) { IterationFor(l, end, k); }
    forall k: nat ensures SomeRuns(l, ranges, k) <==> SomeRunsFor(l.start, Step(l), ranges, k) { SomeRunsIs(l, ranges, k); }
  }

  lemma DisjointForIs(l: Loop, ranges: seq<Part>)
    ensures Disjoint(l, ranges) <==> DisjointFor(l.start, Step(l), ranges)
  {
    if Disjoint(l, ranges) {
      forall i, j, k: nat | 0 <= i < j < |ranges|
        ensures !(Runs(ranges[i].lo, ranges[i].hi, Step(l), Value(l.start, Step(l), k)) && Runs(ranges[j].lo, ranges[j].hi, Step(l), Value(l.start, Step(l), k)))
      {
        assert !(RunsIt(l, ranges[i], k) && RunsIt(l, ranges[j], k));
      }
    }
  }

  lemma SomeRunsIs(l: Loop, ranges: seq<Part>, k: nat)
    ensures SomeRuns(l, ranges, k) <==> SomeRunsFor(l.start, Step(l), ranges, k)
  {
    if SomeRunsFor(l.start, Step(l), ranges, k) {
      var i :| 0 <= i < |ranges| && Runs(ranges[i].lo, ranges[i].hi, Step(l), Value(l.start, Step(l), k));
      assert RunsIt(l, ranges[i], k);
    }
  }

  /** Section 2.7.1 of OpenMP 4.5: the ranges are consecutive chunks of `chunk` iterations, the last one cut at
      the end. */
  ghost predicate ChunksFor(start: int, end: int, step: int, chunk: int, ranges: seq<Part>) {
    forall i :: 0 <= i < |ranges| ==> ChunkFor(start, end, step, chunk, ranges[i], i)
  }

  predicate ChunkFor(start: int, end: int, step: int, chunk: int, r: Part, i: nat) {
    && r.lo == Value(start, step, i * chunk)
    && r.hi == if Before(Value(start, step, (i + 1) * chunk), end, step) then Value(start, step, (i + 1) * chunk) else end
  }

  lemma Regroup(i: int, k: int, d: int)
    ensures Times(i, Times(k, d)) == Times(i * k, d)
  {
  }

  /** The range from iteration `a` to iteration `b` or the end. */
  lemma CutFor(l: Loop, end: int, a: nat, b: nat, c: Chunk)
    requires Valid(l) && EndsAt(l, end) && c.lo == Times(a, Dist(l)) < Length(l) && c.hi == Min(Times(b, Dist(l)), Length(l))
    ensures var r := RangeOf(l, c);
      && r.lo == Value(l.start, Step(l), a)
      && r.hi == if Before(Value(l.start, Step(l), b), end, Step(l)) then Value(l.start, Step(l), b) else end
  {
    IterationIs(l, a);
    IterationIs(l, b);
    LongerThanNone(l, a);
  }

  lemma ChunkForIs(l: Loop, end: int, chunk: nat, c: Chunk, i: nat, size: int)
    requires Valid(l) && EndsAt(l, end) && size == Times(chunk, Dist(l)) && 0 <= c.lo < Length(l)
    requires c.lo == Times(i, size) && c.hi == c.lo + Min(size, Length(l) - c.lo)
    ensures ChunkFor(l.start, end, Step(l), chunk, RangeOf(l, c), i)
  {
    Regroup(i, chunk, Dist(l));
    Regroup(i + 1, chunk, Dist(l));
    TimesStep(i, size);
    CutFor(l, end, i * chunk, (i + 1) * chunk, c);
  }

  lemma ChunksForIs(l: Loop, end: int, chunk: nat, handed: seq<Chunk>, upto: int, size: int)
    requires Valid(l) && EndsAt(l, end) && size == Times(chunk, Dist(l))
    requires EndToEnd(handed, upto) && Locked(handed, size, Length(l)) && upto <= Length(l)
    ensures ChunksFor(l.start, end, Step(l), chunk, RangesOf(l, handed))
  {
    forall i | 0 <= i < |handed| ensures ChunkFor(l.start, end, Step(l), chunk, RangesOf(l, handed)[i], i) {
      BeginsAt(handed, upto, size, Length(l), i);
      if i > 0 { Ordered(handed, upto, 0, i); }
      ChunkForIs(l, end, chunk, handed[i], i, size);
    }
  }

  // ---------- Which chunk sizes fit ----------

  /** A chunk of `c` leads forward and is made of whole steps, or takes the whole loop at once. */
  predicate FitSize(l: Loop, c: int)
    requires Step(l) != 0
  {
    Length(l) == 0 || (c > 0 && (c % Dist(l) == 0 || c >= Length(l)))
  }

  /** The chunk size fits the loop; a caller can compute it from the wrapped product. */
  predicate Fit(l: Loop)
    requires Step(l) != 0
  {
    FitSize(l, Size(l))
  }

  lemma FitBy(l: Loop, k: nat)
    requires Step(l) != 0 && k > 0 && Size(l) == Times(k, Dist(l))
    ensures Fit(l)
  {
    MulMono(1, k, Dist(l));
    ExactMultiple(k, Dist(l));
  }

  lemma TimesNegated(a: int, b: int)
    ensures Times(a, -b) == -Times(a, b) && Times(a, ULL - b) == a * ULL - Times(a, b)
  {
  }

  /** No overflow of the product: the test a caller can make. */
  lemma GuardFits(start: int, end: int, incr: int, chunk: int, n: nat)
    requires incr != 0 && chunk > 0 && InWord(true, Times(chunk, incr))
    ensures var l := LoopInit(start, end, incr, chunk, n); Fit(l) && Size(l) == Times(chunk, Dist(l))
  {
    var l := LoopInit(start, end, incr, chunk, n);
    WordHolds(true, Times(chunk, incr));
    TimesNegated(chunk, -incr);
    FitBy(l, chunk);
  }

  lemma UllGuardFits(up: bool, start: nat, end: nat, incr: nat, chunk: nat, n: nat)
    requires 0 < incr < ULL && chunk > 0 && Times(chunk, if up then incr else ULL - incr) < ULL
    ensures var l := UllInit(up, start, end, incr, chunk, n); Fit(l) && Size(l) == Times(chunk, Dist(l))
  {
    var l := UllInit(up, start, end, incr, chunk, n);
    if up { WrapHolds(Times(chunk, incr)); } else { UllProduct(incr, chunk); }
    FitBy(l, chunk);
  }

  /** A product in two's complement, negated. */
  lemma UllProduct(incr: nat, chunk: nat)
    requires 0 < incr < ULL && chunk > 0 && Times(chunk, ULL - incr) < ULL
    ensures Wrap(0 - Wrap(Times(chunk, incr))) == Times(chunk, ULL - incr)
  {
    MulMono(1, chunk, ULL - incr);
    TimesNegated(chunk, ULL - incr);
    NegatedProduct(chunk, Times(chunk, ULL - incr));
  }

  lemma NegatedProduct(k: nat, x: nat)
    requires 0 < x < ULL
    ensures Wrap(k * ULL - x) == ULL - x && Wrap(0 - Wrap(k * ULL - x)) == x
  {
  }
}
