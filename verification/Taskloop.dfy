/** How GOMP_taskloop and GOMP_taskloop_ull divide the iterations among tasks (taskloop.c). */
module Taskloop {
  import opened Iterations
  import opened Words
  import opened CountedLoops

  datatype Part = Part(lo: int, hi: int)

  /** The parts begin and end at the cuts: part `i` runs the iterations from `cuts[i]` up to `cuts[i + 1]`. */
  ghost predicate Divided(parts: seq<Part>, cuts: seq<int>, start: int, step: int, n: nat) {
    && |cuts| == |parts| + 1 && cuts[0] == 0 && cuts[|parts|] == n
    && (forall i :: 0 <= i < |parts| ==> cuts[i] < cuts[i + 1] && PartAt(parts[i], cuts[i], cuts[i + 1], start, step, n))
  }

  ghost predicate PartAt(part: Part, a: int, b: int, start: int, step: int, n: nat) {
    && part.lo == Value(start, step, a)
    && forall k {:trigger Value(start, step, k)} :: 0 <= k < n ==> (Runs(part.lo, part.hi, step, Value(start, step, k)) <==> a <= k < b)
  }

  lemma {:induction false} CutsIncrease(parts: seq<Part>, cuts: seq<int>, start: int, step: int, n: nat, i: nat, j: nat)
    requires Divided(parts, cuts, start, step, n) && i <= j <= |parts|
    ensures cuts[i] <= cuts[j]
    decreases j
  {
    if i < j { CutsIncrease(parts, cuts, start, step, n, i, j - 1); }
  }

  /** The part that holds an iteration. */
  lemma {:induction false} FindPart(parts: seq<Part>, cuts: seq<int>, start: int, step: int, n: nat, k: nat, j: nat) returns (i: nat)
    requires Divided(parts, cuts, start, step, n) && j <= |parts| && k < cuts[j]
    ensures i < |parts| && cuts[i] <= k < cuts[i + 1]
    decreases j
  {
    if cuts[j - 1] <= k {
      i := j - 1;
    } else {
      i := FindPart(parts, cuts, start, step, n, k, j - 1);
    }
  }

  /** Every iteration is run by exactly one task. */
  lemma ExactlyOnce(parts: seq<Part>, cuts: seq<int>, start: int, step: int, n: nat, k: nat) returns (i: nat)
    requires Divided(parts, cuts, start, step, n) && k < n
    ensures i < |parts|
    ensures forall j :: 0 <= j < |parts| ==> (Runs(parts[j].lo, parts[j].hi, step, Value(start, step, k)) <==> j == i)
  {
    i := FindPart(parts, cuts, start, step, n, k, |parts|);
    forall j | 0 <= j < |parts| ensures Runs(parts[j].lo, parts[j].hi, step, Value(start, step, k)) <==> j == i {
      assert PartAt(parts[j], cuts[j], cuts[j + 1], start, step, n);
      if j < i { CutsIncrease(parts, cuts, start, step, n, j + 1, i); }
      if j > i { CutsIncrease(parts, cuts, start, step, n, i + 1, j); }
    }
  }

  // ---------- Choosing the number and the sizes ----------

  /** `count` parts of `size` iterations, from part `first + 1` on of one less. */
  datatype Split = Split(count: nat, size: nat, first: nat)

  function CutAt(p: Split, i: int): int {
    if i <= p.first + 1 then i * p.size else i * (p.size - 1) + p.first + 1
  }

  function Size(p: Split, i: int): int {
    if i <= p.first then p.size else p.size - 1
  }

  lemma CutStep(p: Split, i: int)
    ensures CutAt(p, i + 1) == CutAt(p, i) + Size(p, i)
  {
    assert (i + 1) * p.size == i * p.size + p.size;
    assert (i + 1) * (p.size - 1) == i * (p.size - 1) + p.size - 1;
    assert i * (p.size - 1) == i * p.size - i;
  }

  /** All iterations, in parts that are not empty. */
  predicate Fair(p: Split, n: nat) {
    p.count > 0 && p.size > 0 && CutAt(p, p.count) == n && (p.first + 1 < p.count ==> p.size > 1)
  }

  /** n / count iterations each, and one more for the first n % count. */
  function Evenly(n: nat, count: nat): Split
    requires count > 0
  {
    if n % count == 0 then Split(count, n / count, n) else Split(count, n / count + 1, n % count - 1)
  }

  lemma EvenlyFair(n: nat, count: nat)
    requires 0 < count <= n
    ensures Fair(Evenly(n, count), n)
  {
    var q, r := n / count, n % count;
    assert n == q * count + r && q * count == count * q;
    assert q >= 1 by { assert (q + 1) * count == q * count + count; Cancel(1, q + 1, count); }
    if r > 0 {
      assert CutAt(Evenly(n, count), count) == count * q + r by { assert count * (q + 1) == count * q + count; }
    }
  }

  /** The grainsize clause with at least as many tasks as the grain: g iterations each, and one more for the
      first n % g. */
  function ByGrain(n: nat, g: nat): Split
    requires g > 0
  {
    var count := n / g;
    if count * g == n then Split(count, g, n) else Split(count, g + 1, n - count * g - 1)
  }

  lemma ByGrainFair(n: nat, g: nat)
    requires g > 0 && n / g >= g
    ensures Fair(ByGrain(n, g), n)
  {
    var count, r := n / g, n % g;
    assert n == count * g + r;
    GrainCut(n, g, count, r);
  }

  lemma GrainCut(n: nat, g: nat, count: nat, r: nat)
    requires 0 < g <= count && n == count * g + r && r < g
    ensures r > 0 ==> CutAt(Split(count, g + 1, r - 1), count) == n
    ensures r == 0 ==> CutAt(Split(count, g, n), count) == n
  {
    MulMono(1, g, count);
    assert g * count == count * g && count * (g + 1) == count * g + count;
  }

  lemma EvenSize(n: nat, g: nat, count: nat, r: nat)
    requires n == count * g + r && r < g && 2 <= count < g
    ensures g <= n / count < 2 * g - 1
  {
    var q, m := n / count, n % count;
    assert n == q * count + m;
    EvenAtLeast(g, count, r, q, m);
    EvenBelow(g, count, r, q, m);
  }

  lemma EvenAtLeast(g: nat, count: nat, r: nat, q: nat, m: nat)
    requires count * g + r == q * count + m && m < count
    ensures g <= q
  {
    assert count * g == g * count && (q + 1) * count == q * count + count;
    Cancel(g, q + 1, count);
  }

  lemma EvenBelow(g: nat, count: nat, r: nat, q: nat, m: nat)
    requires count * g + r == q * count + m && r < g && 2 <= count < g
    ensures q < 2 * g - 1
  {
    MulMono(2, count, g - 1);
    assert (2 * g - 1) * count == g * count + count * (g - 1);
    assert count * g == g * count;
    Cancel(q, 2 * g - 1, count);
  }

  /** Sizes under the grainsize clause: at least the grain and below twice the grain. */
  lemma GrainSizes(n: nat, g: nat, i: nat)
    requires 0 < g && n / g > 1 && i < n / g
    ensures n / g >= g ==> g <= Size(ByGrain(n, g), i) < 2 * g
    ensures n / g < g ==> g <= Size(Evenly(n, n / g), i) < 2 * g
  {
    var count, r := n / g, n % g;
    assert n == count * g + r;
    if count < g {
      EvenSize(n, g, count, r);
      EvenlySize(n, count, i);
    } else {
      ByGrainSize(n, g, i);
    }
  }

  lemma EvenlySize(n: nat, count: nat, i: nat)
    requires 0 < count && i < count && n / count > 0
    ensures n / count <= Size(Evenly(n, count), i) <= n / count + 1
  {
    var q := n / count;
    assert n % count == 0 ==> i <= n by { assert n == q * count + n % count; MulMono(1, q, count); }
  }

  lemma ByGrainSize(n: nat, g: nat, i: nat)
    requires 0 < g && i < n / g
    ensures g <= Size(ByGrain(n, g), i) <= g + 1 && (g == 1 ==> Size(ByGrain(n, g), i) == 1)
  {
    var count := n / g;
    assert n == count * g + n % g;
    assert i <= n by { MulMono(1, g, count); assert g * count == count * g; }
  }

  // ---------- The loops ----------

  /** What the clauses promise about the sizes: balanced, or between the grain and twice the grain. */
  predicate SizesOk(p: Split, n: nat, useGrain: bool, arg: nat) {
    forall i :: 0 <= i < p.count ==> SizeOk(p, n, useGrain, arg, i)
  }

  predicate SizeOk(p: Split, n: nat, useGrain: bool, arg: nat, i: int) {
    if useGrain then (if arg < n then arg else n) <= Size(p, i) < 2 * arg
    else Size(p, 0) - 1 <= Size(p, i) <= Size(p, 0)
  }

  /** Under a grainsize that leaves one task, it takes the loop's own end. */
  predicate Whole(n: nat, useGrain: bool, arg: nat) {
    useGrain && arg > 0 && n / arg <= 1
  }

  /** The division that the clauses call for. */
  function Choose(n: nat, useGrain: bool, arg: nat, nthreads: nat): Split
    requires n > 0 && nthreads > 0 && (useGrain ==> arg > 0)
  {
    if useGrain then
      if n / arg <= 1 then Split(1, n, n) else if n / arg >= arg then ByGrain(n, arg) else Evenly(n, n / arg)
    else
      var count := if arg == 0 then nthreads else arg;
      Evenly(n, if count >= n then n else count)
  }

  lemma FewerThanTwo(n: nat, g: nat)
    requires g > 0 && n / g <= 1
    ensures n < 2 * g
  {
    var q := n / g;
    assert n == q * g + n % g;
    MulMono(q, 1, g);
  }

  lemma ChooseRight(n: nat, useGrain: bool, arg: nat, nthreads: nat)
    requires n > 0 && nthreads > 0 && (useGrain ==> arg > 0)
    ensures var p := Choose(n, useGrain, arg, nthreads); Fair(p, n) && SizesOk(p, n, useGrain, arg)
    ensures var p := Choose(n, useGrain, arg, nthreads);
      if useGrain then p.count == n / arg || (p.count == 1 && n < 2 * arg)
      else p.count <= n && p.count <= (if arg == 0 then nthreads else arg) && (p.count == n || p.count == if arg == 0 then nthreads else arg)
  {
    if useGrain {
      var p := ChooseGrain(n, arg);
      if n / arg <= 1 { FewerThanTwo(n, arg); }
    } else {
      var count := if arg == 0 then nthreads else arg;
      EvenlyFair(n, if count >= n then n else count);
    }
  }

  /** The grainsize clause. */
  method ChooseByGrain(start: int, end: int, step: int, n: nat, g: nat) returns (numTasks: nat, taskStep: int, nfirst: nat)
    requires step != 0 && n > 0 && g > 0
    ensures var p := Choose(n, true, g, 1);
      && numTasks == p.count && nfirst == p.first
      && taskStep == if Whole(n, true, g) then end - start else p.size * step
  {
    numTasks, nfirst := n / g, n;
    if numTasks <= 1 {
      numTasks, taskStep := 1, end - start;
    } else if numTasks >= g {
      var mul := numTasks * g;
      assert n == mul + n % g;
      taskStep := g * step;
      if mul != n {
        taskStep, nfirst := taskStep + step, n - mul - 1;
        assert (g + 1) * step == g * step + step;
      }
    } else {
      taskStep, nfirst := Divide(n, numTasks, step);
    }
  }

  /** The num_tasks clause, or neither. */
  method ChooseByCount(step: int, n: nat, arg: nat, nthreads: nat) returns (numTasks: nat, taskStep: int, nfirst: nat)
    requires n > 0 && nthreads > 0
    ensures var p := Choose(n, false, arg, nthreads);
      numTasks == p.count && nfirst == p.first && taskStep == p.size * step
  {
    numTasks, nfirst, taskStep := arg, n, step;
    if numTasks == 0 {
      numTasks := nthreads;
    }
    if numTasks >= n {
      numTasks := n;
      OneEach(n);
    } else {
      taskStep, nfirst := Divide(n, numTasks, step);
    }
  }

  lemma OneEach(n: nat)
    requires n > 0
    ensures Evenly(n, n) == Split(n, 1, n)
  {
  }

  /** The quotient for each, and one more for the first ones if there is a remainder. */
  method Divide(n: nat, numTasks: nat, step: int) returns (taskStep: int, nfirst: nat)
    requires numTasks > 0
    ensures taskStep == Evenly(n, numTasks).size * step && nfirst == Evenly(n, numTasks).first
  {
    var div, mod := n / numTasks, n % numTasks;
    taskStep, nfirst := div * step, n;
    if mod != 0 {
      taskStep, nfirst := taskStep + step, mod - 1;
      assert (div + 1) * step == div * step + step;
    }
  }

  lemma ChooseGrain(n: nat, g: nat) returns (p: Split)
    requires g > 0 && n > 0
    ensures p == if n / g <= 1 then Split(1, n, n) else if n / g >= g then ByGrain(n, g) else Evenly(n, n / g)
    ensures Fair(p, n) && SizesOk(p, n, true, g)
  {
    var count, r := n / g, n % g;
    assert n == count * g + r;
    if count <= 1 {
      p := Split(1, n, n);
      assert Size(p, 0) == n;
    } else {
      assert g <= n by { MulMono(1, count, g); }
      if count >= g {
        p := ByGrain(n, g);
        ByGrainFair(n, g);
      } else {
        p := Evenly(n, count);
        assert count <= n;
        EvenlyFair(n, count);
      }
      forall i | 0 <= i < p.count ensures SizeOk(p, n, true, g, i) { GrainSizes(n, g, i); }
    }
  }

  // ---------- The ranges, in words ----------

  /** The ranges of the tasks: the running start is a word. */
  function PartsOf(signed: bool, start: int, end: int, step: int, p: Split, whole: bool): (parts: seq<Part>)
    ensures |parts| == p.count && forall i :: 0 <= i < |parts| ==> parts[i] == PartOf(signed, start, end, step, p, whole, i)
  {
    seq(p.count, i => PartOf(signed, start, end, step, p, whole, i))
  }

  function PartOf(signed: bool, start: int, end: int, step: int, p: Split, whole: bool, i: int): Part {
    Part(Word(signed, Value(start, step, CutAt(p, i))), if whole then end else Word(signed, Value(start, step, CutAt(p, i + 1))))
  }

  /** What `i` additions of the running task_step come to. */
  function Offset(taskStep: int, step: int, nfirst: nat, i: int): int {
    if i <= nfirst + 1 then i * taskStep else i * (taskStep - step) + (nfirst + 1) * step
  }

  lemma OffsetStep(taskStep: int, step: int, nfirst: nat, i: int)
    ensures Offset(taskStep, step, nfirst, i + 1) == Offset(taskStep, step, nfirst, i) + if i <= nfirst then taskStep else taskStep - step
  {
    assert (i + 1) * taskStep == i * taskStep + taskStep;
    assert (i + 1) * (taskStep - step) == i * (taskStep - step) + taskStep - step;
    if i == nfirst + 1 { assert i * (taskStep - step) == i * taskStep - i * step; }
  }

  lemma OffsetIsCut(p: Split, step: int, i: int)
    ensures Offset(p.size * step, step, p.first, i) == CutAt(p, i) * step
  {
    assert i * (p.size * step) == (i * p.size) * step;
    assert p.size * step - step == (p.size - 1) * step;
    assert i * ((p.size - 1) * step) == (i * (p.size - 1)) * step;
    assert (i * (p.size - 1) + p.first + 1) * step == (i * (p.size - 1)) * step + (p.first + 1) * step;
  }

  /** The loop that hands out the ranges; the running start is a word. */
  method HandOut(signed: bool, start: int, taskStep: int, step: int, numTasks: nat, nfirst: nat) returns (parts: seq<Part>)
    requires InWord(signed, start)
    ensures |parts| == numTasks
    ensures forall i :: 0 <= i < numTasks ==>
      parts[i] == Part(Word(signed, start + Offset(taskStep, step, nfirst, i)), Word(signed, start + Offset(taskStep, step, nfirst, i + 1)))
  {
    parts := [];
    var x, current, i := start, taskStep, 0;
    WordHolds(signed, start);
    while i < numTasks
      invariant 0 <= i <= numTasks && |parts| == i
      invariant x == Word(signed, start + Offset(taskStep, step, nfirst, i))
      invariant current == if i <= nfirst then taskStep else taskStep - step
      invariant forall j :: 0 <= j < i ==>
        parts[j] == Part(Word(signed, start + Offset(taskStep, step, nfirst, j)), Word(signed, start + Offset(taskStep, step, nfirst, j + 1)))
    {
      OffsetStep(taskStep, step, nfirst, i);
      WordSum(signed, current, start + Offset(taskStep, step, nfirst, i));
      var lo := x;
      x := Word(signed, x + current);
      parts := parts + [Part(lo, x)];
      if i == nfirst {
        current := current - step;
      }
      i := i + 1;
    }
  }

  lemma HandedParts(signed: bool, start: int, end: int, step: int, p: Split, whole: bool, taskStep: int, parts: seq<Part>)
    requires |parts| == p.count && InWord(signed, end)
    requires taskStep == if whole then end - start else p.size * step
    requires whole ==> p.count == 1
    requires forall i :: 0 <= i < |parts| ==>
      parts[i] == Part(Word(signed, start + Offset(taskStep, step, p.first, i)), Word(signed, start + Offset(taskStep, step, p.first, i + 1)))
    ensures parts == PartsOf(signed, start, end, step, p, whole)
  {
    forall i | 0 <= i < |parts| ensures parts[i] == PartOf(signed, start, end, step, p, whole, i) {
      if whole {
        assert Offset(taskStep, step, p.first, 0) == 0 && Offset(taskStep, step, p.first, 1) == end - start;
        assert CutAt(p, 0) == 0 && Value(start, step, 0) == start;
        WordHolds(signed, end);
      } else {
        OffsetIsCut(p, step, i);
        OffsetIsCut(p, step, i + 1);
      }
    }
  }

  /** GOMP_taskloop: the ranges of the tasks, in order. */
  method TaskRanges(signed: bool, start: int, end: int, step: int, useGrain: bool, arg: nat, nthreads: nat) returns (parts: seq<Part>)
    requires step != 0 && nthreads > 0 && (useGrain ==> arg > 0)
    requires Before(start, end, step) ==> Countable(signed, start, end, step)
    ensures !Before(start, end, step) ==> parts == []
    ensures Before(start, end, step) ==>
      var n := TripCount(start, end, step);
      n > 0 && parts == PartsOf(signed, start, end, step, Choose(n, useGrain, arg, nthreads), Whole(n, useGrain, arg))
  {
    parts := [];
    if !Before(start, end, step) {
      return;
    }
    CountOf(signed, start, end, step);
    WordCountExact(signed, start, end, step);
    var n := WordCount(signed, start, end, step);
    var numTasks, taskStep, nfirst;
    if useGrain {
      numTasks, taskStep, nfirst := ChooseByGrain(start, end, step, n, arg);
    } else {
      numTasks, taskStep, nfirst := ChooseByCount(step, n, arg, nthreads);
    }
    parts := HandOut(signed, start, taskStep, step, numTasks, nfirst);
    HandedParts(signed, start, end, step, Choose(n, useGrain, arg, nthreads), Whole(n, useGrain, arg), taskStep, parts);
  }

  // ---------- When every iteration is run ----------

  function Cuts(p: Split): (c: seq<int>)
    ensures |c| == p.count + 1 && forall i :: 0 <= i < |c| ==> c[i] == CutAt(p, i)
  {
    seq(p.count + 1, i => CutAt(p, i))
  }

  lemma WholePart(start: int, end: int, step: int, n: nat)
    requires step != 0 && Before(start, end, step) && n == TripCount(start, end, step)
    ensures PartAt(Part(start, end), 0, n, start, step, n)
  {
    forall k | 0 <= k < n ensures Runs(start, end, step, Value(start, step, k)) {
      TripCountExact(start, end, step, k);
      ValueOrder(start, step, k, 0);
      assert Value(start, step, 0) == start;
    }
  }

  /** A part between two cuts runs what is between them. */
  lemma PartHolds(start: int, step: int, a: int, b: int, n: nat)
    requires step != 0
    ensures PartAt(Part(Value(start, step, a), Value(start, step, b)), a, b, start, step, n)
  {
    forall k | 0 <= k < n
      ensures Runs(Value(start, step, a), Value(start, step, b), step, Value(start, step, k)) <==> a <= k < b
    {
      PartRuns(start, step, a, b, k);
    }
  }

  lemma {:induction false} CutBounds(p: Split, n: nat, i: nat)
    requires Fair(p, n) && i <= p.count
    ensures 0 <= CutAt(p, i) <= n && (i < p.count ==> CutAt(p, i) < n)
    decreases p.count - i
  {
    if i < p.count {
      CutStep(p, i);
      CutBounds(p, n, i + 1);
    }
    CutsFromZero(p, n, i);
  }

  lemma {:induction false} CutsFromZero(p: Split, n: nat, i: nat)
    requires Fair(p, n) && i <= p.count
    ensures CutAt(p, i) >= 0
  {
    if i > 0 {
      CutStep(p, i - 1);
      CutsFromZero(p, n, i - 1);
    }
  }

  /** A cut before the end is an iteration, and its value a word. */
  lemma CutInWord(signed: bool, start: int, end: int, step: int, p: Split, n: nat, i: nat)
    requires Countable(signed, start, end, step) && n == TripCount(start, end, step) && Fair(p, n)
    requires i <= p.count && (i < p.count || InWord(signed, Value(start, step, n)))
    ensures 0 <= CutAt(p, i) && Word(signed, Value(start, step, CutAt(p, i))) == Value(start, step, CutAt(p, i))
  {
    CutBounds(p, n, i);
    if CutAt(p, i) < n { ValueInWord(signed, start, end, step, CutAt(p, i)); }
    WordHolds(signed, Value(start, step, CutAt(p, i)));
  }

  lemma PartsDivide(signed: bool, start: int, end: int, step: int, p: Split, n: nat)
    requires Countable(signed, start, end, step) && n == TripCount(start, end, step) && Fair(p, n)
    requires InWord(signed, Value(start, step, n))
    ensures Divided(PartsOf(signed, start, end, step, p, false), Cuts(p), start, step, n)
  {
    var parts := PartsOf(signed, start, end, step, p, false);
    forall i | 0 <= i < |parts| ensures CutAt(p, i) < CutAt(p, i + 1) && PartAt(parts[i], CutAt(p, i), CutAt(p, i + 1), start, step, n) {
      CutStep(p, i);
      CutInWord(signed, start, end, step, p, n, i);
      CutInWord(signed, start, end, step, p, n, i + 1);
      PartHolds(start, step, CutAt(p, i), CutAt(p, i + 1), n);
    }
  }

  lemma WholeDivides(signed: bool, start: int, end: int, step: int, n: nat)
    requires Countable(signed, start, end, step) && Before(start, end, step) && n == TripCount(start, end, step) && n > 0
    ensures var p := Split(1, n, n); Divided(PartsOf(signed, start, end, step, p, true), Cuts(p), start, step, n)
  {
    var p := Split(1, n, n);
    assert Value(start, step, 0) == start;
    WordHolds(signed, start);
    WholePart(start, end, step, n);
    assert CutAt(p, 0) == 0 && CutAt(p, 1) == n;
    assert PartsOf(signed, start, end, step, p, true)[0] == Part(start, end);
  }

  /** Iteration `k` is run by exactly one of the tasks. */
  ghost predicate OnceAt(parts: seq<Part>, start: int, step: int, k: nat) {
    exists i :: 0 <= i < |parts| && OnlyRuns(parts, start, step, k, i)
  }

  ghost predicate OnlyRuns(parts: seq<Part>, start: int, step: int, k: nat, i: int) {
    forall j :: 0 <= j < |parts| ==> (Runs(parts[j].lo, parts[j].hi, step, Value(start, step, k)) <==> j == i)
  }

  ghost predicate AllOnce(parts: seq<Part>, start: int, step: int, n: nat) {
    forall k: nat :: k < n ==> OnceAt(parts, start, step, k)
  }

  lemma DividedOnce(parts: seq<Part>, cuts: seq<int>, start: int, step: int, n: nat)
    requires Divided(parts, cuts, start, step, n)
    ensures AllOnce(parts, start, step, n)
  {
    forall k: nat | k < n ensures OnceAt(parts, start, step, k) {
      var i := ExactlyOnce(parts, cuts, start, step, n, k);
      assert OnlyRuns(parts, start, step, k, i);
    }
  }

  /** If the value after the last iteration is no word, no task runs the last iteration. */
  lemma LastLost(signed: bool, start: int, end: int, step: int, p: Split, n: nat, j: nat)
    requires Countable(signed, start, end, step) && n == TripCount(start, end, step) && n > 0 && Fair(p, n) && j < p.count
    requires !InWord(signed, Value(start, step, n))
    ensures var part := PartOf(signed, start, end, step, p, false, j);
      !Runs(part.lo, part.hi, step, Value(start, step, n - 1))
  {
    if j + 1 < p.count {
      CutInWord(signed, start, end, step, p, n, j + 1);
      CutBounds(p, n, j + 1);
      ValueOrder(start, step, n - 1, CutAt(p, j + 1));
    } else {
      ValueAfter(signed, start, end, step, n - 1);
    }
  }

  lemma NotAllOnce(signed: bool, start: int, end: int, step: int, p: Split, n: nat)
    requires Countable(signed, start, end, step) && n == TripCount(start, end, step) && n > 0 && Fair(p, n)
    requires !InWord(signed, Value(start, step, n))
    ensures !AllOnce(PartsOf(signed, start, end, step, p, false), start, step, n)
  {
    var parts := PartsOf(signed, start, end, step, p, false);
    forall j | 0 <= j < |parts| ensures !Runs(parts[j].lo, parts[j].hi, step, Value(start, step, n - 1)) {
      LastLost(signed, start, end, step, p, n, j);
    }
    NotOnce(parts, start, step, n - 1);
  }

  lemma NotOnce(parts: seq<Part>, start: int, step: int, k: nat)
    requires forall j :: 0 <= j < |parts| ==> !Runs(parts[j].lo, parts[j].hi, step, Value(start, step, k))
    ensures !OnceAt(parts, start, step, k)
  {
    forall i | 0 <= i < |parts| ensures !OnlyRuns(parts, start, step, k, i) {
      assert !Runs(parts[i].lo, parts[i].hi, step, Value(start, step, k));
    }
  }

  lemma PartsExact(signed: bool, start: int, end: int, step: int, p: Split, whole: bool, n: nat)
    requires Countable(signed, start, end, step) && Before(start, end, step) && n == TripCount(start, end, step) && n > 0
    requires Fair(p, n) && (whole ==> p == Split(1, n, n))
    ensures AllOnce(PartsOf(signed, start, end, step, p, whole), start, step, n)
            <==> InWord(signed, Value(start, step, n)) || whole
  {
    if whole {
      WholeDivides(signed, start, end, step, n);
      DividedOnce(PartsOf(signed, start, end, step, p, true), Cuts(p), start, step, n);
    } else if InWord(signed, Value(start, step, n)) {
      PartsDivide(signed, start, end, step, p, n);
      DividedOnce(PartsOf(signed, start, end, step, p, false), Cuts(p), start, step, n);
    } else {
      NotAllOnce(signed, start, end, step, p, n);
    }
  }

  /** Exactly when every iteration is run by one task: the value after the last iteration is a word, or a
      grainsize leaves one task, which takes the loop's own end. */
  lemma TaskloopExact(signed: bool, start: int, end: int, step: int, useGrain: bool, arg: nat, nthreads: nat)
    requires Countable(signed, start, end, step) && Before(start, end, step) && nthreads > 0 && (useGrain ==> arg > 0)
    ensures var n := TripCount(start, end, step);
      n > 0 &&
      (AllOnce(PartsOf(signed, start, end, step, Choose(n, useGrain, arg, nthreads), Whole(n, useGrain, arg)), start, step, n)
       <==> InWord(signed, Value(start, step, n)) || Whole(n, useGrain, arg))
  {
    CountOf(signed, start, end, step);
    var n := TripCount(start, end, step);
    ChooseRight(n, useGrain, arg, nthreads);
    PartsExact(signed, start, end, step, Choose(n, useGrain, arg, nthreads), Whole(n, useGrain, arg), n);
  }

  /** A loop whose one iteration is lost when each iteration is a task of its own. */
  lemma TaskEndWraps()
    ensures !AllOnce(PartsOf(true, LONG_MAX - 1, LONG_MAX, 2, Choose(1, false, 0, 2), false), LONG_MAX - 1, 2, 1)
  {
    assert TripCount(LONG_MAX - 1, LONG_MAX, 2) == 1;
    TaskloopExact(true, LONG_MAX - 1, LONG_MAX, 2, false, 0, 2);
  }
}
