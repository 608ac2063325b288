/** The guided schedule, locked and with compare and swap, in the words of the machine (iter.c, iter_ull.c). */
module GuidedLoop {
  import opened Words
  import opened Iterations
  import opened HandOut
  import opened LoopWords

  /** The whole steps that are left, as the source divides. */
  function StepsLeft(l: Loop, start: int): int
    requires l.incr != 0 && (!l.signed && !l.up ==> 0 < l.incr < ULL)
  {
    if l.signed then CDiv(l.end - start, l.incr)
    else if l.up then Wrap(l.end - start) / l.incr
    else Wrap(start - l.end) / Wrap(0 - l.incr)
  }

  /** The number of steps to hand out: an equal share, rounded up, but at least the chunk size. */
  function Asked(n: int, chunk: int, nthreads: nat): int
    requires nthreads > 0
  {
    var q := Wrap(n + nthreads - 1) / nthreads;
    if q < chunk then chunk else q
  }

  /** gomp_iter_guided_next_locked and gomp_iter_ull_guided_next_locked, and one pass of the retry loops: the new
      value of ws->next. */
  function GuidedNext(l: Loop, start: int, nthreads: nat): int
    requires nthreads > 0 && l.incr != 0 && (!l.signed && !l.up ==> 0 < l.incr < ULL)
  {
    var n := StepsLeft(l, start);
    var q := Asked(n, Wrap(l.chunkSize), nthreads);
    if q <= n then Word(l.signed, start + Times(q, l.incr)) else l.end
  }

  /** A minimal chunk of 0 does only if whole steps lead to the end and the rounding up does not wrap; as an
      unsigned word any other one does. */
  predicate Moves(l: Loop, nthreads: nat)
    requires Dist(l) > 0
  {
    l.chunkSize != 0 || Length(l) == 0 || (Length(l) % Dist(l) == 0 && Length(l) / Dist(l) + nthreads - 1 < ULL)
  }

  ghost predicate Guided(l: Loop, nthreads: nat) {
    Valid(l) && nthreads > 0 && Moves(l, nthreads)
  }

  /** What is handed out at a position. */
  function GuidedSize(l: Loop, pos: int, nthreads: nat): int
    requires nthreads > 0 && Dist(l) > 0
  {
    var left := Length(l) - pos;
    GuidedTake(Asked(left / Dist(l), Wrap(l.chunkSize), nthreads), left / Dist(l), Dist(l), left)
  }

  lemma ShareBounds(n: int, nthreads: nat)
    requires n >= 0 && nthreads > 0
    ensures n == 0 || n + nthreads - 1 >= ULL > n ==> Asked(n, 0, nthreads) == 0
    ensures 0 < n && n + nthreads - 1 < ULL ==> 0 < Asked(n, 0, nthreads)
    ensures 0 < Asked(n, 0, nthreads) && n < ULL ==> Asked(n, 0, nthreads) <= n
  {
    var x := Wrap(n + nthreads - 1);
    if n + nthreads - 1 < ULL { WrapHolds(n + nthreads - 1); }
    if ULL <= n + nthreads - 1 < 2 * ULL { WrapAround(n + nthreads - 1); }
    if x < nthreads {
      SmallQuotient(x, nthreads);
    } else if 0 < n && n + nthreads - 1 < ULL {
      QuotientBetween(n, nthreads);
    }
  }

  lemma SmallQuotient(x: nat, d: nat)
    requires x < d
    ensures x / d == 0
  {
  }

  lemma QuotientBetween(n: nat, d: nat)
    requires n > 0 && d > 0
    ensures 0 < (n + d - 1) / d <= n
  {
    CeilBounds(n, d, 0);
    CeilBounds(n, d, n);
    MulMono(1, d, n);
    assert d * n == n * d;
  }

  lemma DivExact(k: int, d: int)
    requires d > 0
    ensures (k * d) / d == k
  {
    var q := (k * d) / d;
    assert k * d == q * d + (k * d) % d;
    assert (q + 1) * d == q * d + d && (k + 1) * d == k * d + d;
    Cancel(k, q + 1, d);
    Cancel(q, k + 1, d);
  }

  lemma Multiple(x: int, d: int)
    requires d > 0 && x % d == 0
    ensures x == (x / d) * d
  {
  }

  /** Whole steps are left, no more than at first. */
  lemma WholeLeft(length: int, pos: int, d: int)
    requires d > 0 && 0 <= pos < length && pos % d == 0 && length % d == 0
    ensures 0 < (length - pos) / d <= length / d
  {
    Multiple(length, d);
    Multiple(pos, d);
    StepsBetween(length, pos, d, length / d, pos / d);
  }

  lemma StepsBetween(length: int, pos: int, d: int, a: int, b: int)
    requires d > 0 && 0 <= pos < length && length == a * d && pos == b * d
    ensures 0 < (length - pos) / d <= a
  {
    Cancel(b, a, d);
    Cancel(-1, b, d);
    assert length - pos == (a - b) * d;
    DivExact(a - b, d);
  }

  lemma StepFits(left: int, d: int, q: int)
    requires d > 0 && left >= 0 && 0 <= q <= left / d
    ensures 0 <= Times(q, d) <= left
  {
    var n := left / d;
    assert left == n * d + left % d;
    TimesMono(q, n, d);
    TimesMono(0, q, d);
  }

  lemma AskedPositive(l: Loop, pos: int, nthreads: nat)
    requires Guided(l, nthreads) && 0 <= pos < Length(l) && pos % Dist(l) == 0
    ensures 0 < Asked((Length(l) - pos) / Dist(l), Wrap(l.chunkSize), nthreads)
  {
    if l.chunkSize == 0 {
      WholeLeft(Length(l), pos, Dist(l));
      ShareBounds((Length(l) - pos) / Dist(l), nthreads);
    }
  }

  lemma SizeBounds(l: Loop, pos: int, nthreads: nat)
    requires Guided(l, nthreads) && 0 <= pos < Length(l) && pos % Dist(l) == 0
    ensures 0 < GuidedSize(l, pos, nthreads) <= Length(l) - pos
    ensures GuidedSize(l, pos, nthreads) == Length(l) - pos || GuidedSize(l, pos, nthreads) % Dist(l) == 0
  {
    var left := Length(l) - pos;
    AskedPositive(l, pos, nthreads);
    GuidedFits(Asked(left / Dist(l), Wrap(l.chunkSize), nthreads), Dist(l), left);
  }

  lemma DivideForward(left: int, d: int)
    requires d > 0 && left >= 0
    ensures CDiv(left, d) == left / d && CDiv(-left, -d) == left / d
  {
  }

  lemma UllNegated(incr: int)
    requires 0 < incr < ULL
    ensures Wrap(0 - incr) == ULL - incr
  {
  }

  lemma StepsLeftIs(l: Loop, pos: int)
    requires Valid(l) && 0 <= pos <= Length(l)
    ensures StepsLeft(l, ValueAt(l, pos)) == (Length(l) - pos) / Dist(l)
  {
    var left := Length(l) - pos;
    if l.signed {
      DivideForward(left, Dist(l));
      assert l.end - ValueAt(l, pos) == if l.up then left else -left;
    } else {
      WrapHolds(left);
      if !l.up { UllNegated(l.incr); }
    }
  }

  lemma TimesStepIs(l: Loop, x: int, q: int)
    requires Valid(l)
    ensures Word(l.signed, x + Times(q, l.incr)) == Word(l.signed, if l.up then x + Times(q, Dist(l)) else x - Times(q, Dist(l)))
  {
    if !l.signed && !l.up {
      assert Times(q, l.incr) == q * ULL - Times(q, Dist(l)) by { assert l.incr == ULL - Dist(l); }
      WrapMultiple(x - Times(q, Dist(l)), q);
    } else if !l.up {
      assert Times(q, l.incr) == -Times(q, Dist(l));
    }
  }

  lemma WrapMultiple(x: int, q: int)
    ensures Wrap(x + q * ULL) == Wrap(x)
  {
  }

  lemma AskedMoves(l: Loop, pos: int, nthreads: nat, q: int)
    requires Valid(l) && 0 <= pos < Length(l) && 0 <= q <= (Length(l) - pos) / Dist(l)
    ensures Word(l.signed, ValueAt(l, pos) + Times(q, l.incr)) == ValueAt(l, pos + Times(q, Dist(l)))
    ensures pos + Times(q, Dist(l)) <= Length(l)
  {
    StepFits(Length(l) - pos, Dist(l), q);
    TimesStepIs(l, ValueAt(l, pos), q);
    PlaceInWord(l, pos, Times(q, Dist(l)));
  }

  lemma PlaceInWord(l: Loop, pos: int, x: int)
    requires Valid(l) && 0 <= pos && 0 <= x && pos + x <= Length(l)
    ensures Word(l.signed, if l.up then ValueAt(l, pos) + x else ValueAt(l, pos) - x) == ValueAt(l, pos + x)
  {
    WordHolds(l.signed, ValueAt(l, pos + x));
  }

  /** The hand-out in words is the hand-out in positions, up or down, signed or not. */
  lemma GuidedNextIs(l: Loop, pos: int, nthreads: nat)
    requires Guided(l, nthreads) && 0 <= pos < Length(l) && pos % Dist(l) == 0
    ensures GuidedNext(l, ValueAt(l, pos), nthreads) == ValueAt(l, pos + GuidedSize(l, pos, nthreads))
  {
    var n := (Length(l) - pos) / Dist(l);
    var q := Asked(n, Wrap(l.chunkSize), nthreads);
    StepsLeftIs(l, pos);
    AskedPositive(l, pos, nthreads);
    if q <= n { AskedMoves(l, pos, nthreads, q); }
  }

  // ---------- Compare and swap ----------

  /** The counter, the value each thread in the loop has read, the threads refused and the ranges handed out. */
  datatype GuidedState = GuidedState(next: int, seen: map<Thread, int>, refused: set<Thread>, ranges: seq<Part>)

  /** A thread reads the counter, or makes one pass of the retry loop; a thread that holds the lock does both at
      once. */
  function WordStep(l: Loop, s: GuidedState, ev: CasEvent, nthreads: nat): GuidedState
    requires nthreads > 0 && l.incr != 0 && (!l.signed && !l.up ==> 0 < l.incr < ULL)
  {
    match ev
    case Enter(t) => if t in s.seen then s else s.(seen := s.seen[t := s.next])
    case Attempt(t) =>
      if t !in s.seen then s
      else
        var start := s.seen[t];
        if start == l.end then s.(seen := s.seen - {t}, refused := s.refused + {t})
        else
          var nend := GuidedNext(l, start, nthreads);
          if s.next == start then GuidedState(nend, s.seen - {t}, s.refused, s.ranges + [Part(start, nend)])
          else s.(seen := s.seen[t := s.next])
  }

  function WordRun(l: Loop, evs: seq<CasEvent>, nthreads: nat): GuidedState
    requires nthreads > 0 && l.incr != 0 && (!l.signed && !l.up ==> 0 < l.incr < ULL)
  {
    if evs == [] then GuidedState(l.start, map[], {}, []) else WordStep(l, WordRun(l, evs[..|evs| - 1], nthreads), evs[|evs| - 1], nthreads)
  }

  /** The counter stands at `pos`; the chunks so far lie end to end, begin at steps and have their sizes. */
  ghost predicate Ok(l: Loop, s: GuidedState, nthreads: nat, pos: int, handed: seq<Chunk>)
    requires Dist(l) > 0 && nthreads > 0
  {
    && 0 <= pos <= Length(l) && (pos == Length(l) || pos % Dist(l) == 0) && s.next == ValueAt(l, pos)
    && s.ranges == RangesOf(l, handed) && EndToEnd(handed, pos)
    && (forall i :: 0 <= i < |handed| ==> handed[i].lo >= 0 && handed[i].lo % Dist(l) == 0)
    && (s.refused != {} ==> pos == Length(l))
    && (forall t :: t in s.seen ==> ReadOk(l, s.seen[t], pos))
    && (forall i :: 0 <= i < |handed| ==> handed[i].hi == handed[i].lo + GuidedSize(l, handed[i].lo, nthreads))
  }

  /** What a thread has read was the counter at some time. */
  ghost predicate ReadOk(l: Loop, x: int, pos: int) {
    exists p :: 0 <= p <= pos && x == ValueAt(l, p)
  }

  lemma ReadLater(l: Loop, x: int, pos: int, later: int)
    requires ReadOk(l, x, pos) && pos <= later
    ensures ReadOk(l, x, later)
  {
  }

  /** The value read is the end only when the counter is there. */
  lemma ReadEnd(l: Loop, x: int, pos: int)
    requires Valid(l) && ReadOk(l, x, pos) && pos <= Length(l)
    ensures x == l.end ==> pos == Length(l)
  {
  }

  lemma Swap(l: Loop, s: GuidedState, t: Thread, nthreads: nat, pos: int, handed: seq<Chunk>) returns (pos': int, handed': seq<Chunk>)
    requires Guided(l, nthreads) && Ok(l, s, nthreads, pos, handed) && t in s.seen && s.seen[t] == s.next && s.next != l.end
    ensures Ok(l, WordStep(l, s, Attempt(t), nthreads), nthreads, pos', handed')
  {
    var s' := WordStep(l, s, Attempt(t), nthreads);
    var c := GuidedSize(l, pos, nthreads);
    GuidedNextIs(l, pos, nthreads);
    SizeBounds(l, pos, nthreads);
    pos', handed' := pos + c, handed + [Chunk(pos, pos + c)];
    Extend(handed, pos, pos + c);
    RangesOfGrow(l, handed, Chunk(pos, pos + c));
    if pos + c < Length(l) { ModSum(pos, c, Dist(l)); }
    forall u | u in s'.seen ensures ReadOk(l, s'.seen[u], pos') { ReadLater(l, s.seen[u], pos, pos'); }
  }

  lemma RangesOfGrow(l: Loop, handed: seq<Chunk>, c: Chunk)
    ensures RangesOf(l, handed + [c]) == RangesOf(l, handed) + [RangeOf(l, c)]
  {
  }

  lemma StepKeeps(l: Loop, s: GuidedState, ev: CasEvent, nthreads: nat, pos: int, handed: seq<Chunk>) returns (pos': int, handed': seq<Chunk>)
    requires Guided(l, nthreads) && Ok(l, s, nthreads, pos, handed)
    ensures Ok(l, WordStep(l, s, ev, nthreads), nthreads, pos', handed')
  {
    pos', handed' := pos, handed;
    if ev.Attempt? && ev.t in s.seen {
      ReadEnd(l, s.seen[ev.t], pos);
      if s.seen[ev.t] != l.end && s.seen[ev.t] == s.next {
        pos', handed' := Swap(l, s, ev.t, nthreads, pos, handed);
      }
    }
  }

  lemma {:induction false} RunOk(l: Loop, evs: seq<CasEvent>, nthreads: nat) returns (pos: int, handed: seq<Chunk>)
    requires Guided(l, nthreads)
    ensures Ok(l, WordRun(l, evs, nthreads), nthreads, pos, handed)
  {
    if evs == [] {
      pos, handed := 0, [];
    } else {
      pos, handed := RunOk(l, evs[..|evs| - 1], nthreads);
      pos, handed := StepKeeps(l, WordRun(l, evs[..|evs| - 1], nthreads), evs[|evs| - 1], nthreads, pos, handed);
    }
  }

  /** In every interleaving of the retry loops, up or down, signed or not: every range begins at an iteration, no
      iteration is run twice, and after a refusal all are run. */
  lemma GuidedTheorem(l: Loop, evs: seq<CasEvent>, nthreads: nat)
    requires Guided(l, nthreads)
    ensures var s := WordRun(l, evs, nthreads); Right(l, s.ranges) && (s.refused != {} ==> AllRun(l, s.ranges))
  {
    var pos, handed := RunOk(l, evs, nthreads);
    AccountRight(l, handed, pos);
  }

  // ---------- The sizes ----------

  /** `k` steps are an equal share of `n`, rounded up, but at least the minimal chunk: the least such number. */
  predicate ShareFor(n: int, chunk: int, nthreads: nat, k: int) {
    k >= chunk && Times(k, nthreads) >= n && (k == chunk || Times(k - 1, nthreads) < n)
  }

  lemma ShareUnique(n: int, chunk: int, nthreads: nat, j: int, k: int)
    requires ShareFor(n, chunk, nthreads, j) && ShareFor(n, chunk, nthreads, k)
    ensures j == k
  {
    if j < k { TimesMono(j, k - 1, nthreads); }
    if k < j { TimesMono(k, j - 1, nthreads); }
  }

  lemma AskedIsShare(n: int, chunk: int, nthreads: nat)
    requires 0 <= n && nthreads > 0 && n + nthreads - 1 < ULL && chunk >= 0
    ensures ShareFor(n, chunk, nthreads, Asked(n, chunk, nthreads))
  {
    WrapHolds(n + nthreads - 1);
    var q := (n + nthreads - 1) / nthreads;
    CeilBounds(n, nthreads, q);
    CeilBounds(n, nthreads, q - 1);
    if q < chunk { TimesMono(q, chunk, nthreads); }
  }

  /** The whole steps from `x` to the end. */
  function StepsTo(x: int, end: int, step: int): int
    requires step != 0
  {
    if step > 0 then (end - x) / step else (x - end) / -step
  }

  /** Section 2.7.1 of OpenMP 4.5: the range has the equal share of the steps that are left, or takes the rest. */
  ghost predicate GuidedFor(end: int, step: int, chunk: int, nthreads: nat, r: Part)
    requires step != 0
  {
    var n := StepsTo(r.lo, end, step);
    exists k: nat :: ShareFor(n, chunk, nthreads, k) && r.hi == if k <= n then Value(r.lo, step, k) else end
  }

  lemma ValueSteps(l: Loop, pos: int, k: int)
    requires Valid(l)
    ensures Value(ValueAt(l, pos), Step(l), k) == ValueAt(l, pos + Times(k, Dist(l)))
  {
    TimesSign(k, Step(l));
  }

  lemma TimesSign(k: int, d: int)
    ensures Times(k, d) == k * d && Times(k, -d) == -(k * d)
  {
  }

  lemma SizedRange(l: Loop, end: int, nthreads: nat, c: Chunk)
    requires Guided(l, nthreads) && EndsAt(l, end) && 0 <= c.lo < Length(l) && c.lo % Dist(l) == 0
    requires c.hi == c.lo + GuidedSize(l, c.lo, nthreads)
    requires StepsTo(RangeOf(l, c).lo, end, Step(l)) + nthreads - 1 < ULL
    ensures GuidedFor(end, Step(l), Wrap(l.chunkSize), nthreads, RangeOf(l, c))
  {
    var n := (Length(l) - c.lo) / Dist(l);
    var q := Asked(n, Wrap(l.chunkSize), nthreads);
    assert StepsTo(RangeOf(l, c).lo, end, Step(l)) == n;
    LengthInSteps(Length(l) - c.lo, Dist(l));
    AskedIsShare(n, Wrap(l.chunkSize), nthreads);
    AskedPositive(l, c.lo, nthreads);
    ValueSteps(l, c.lo, q);
    TimesSign(q, Dist(l));
  }

  /** What a run has handed out at the point `r.lo` has the size of an equal share there. */
  ghost predicate SizesFor(end: int, step: int, chunk: int, nthreads: nat, ranges: seq<Part>)
    requires step != 0
  {
    forall i :: 0 <= i < |ranges| && StepsTo(ranges[i].lo, end, step) + nthreads - 1 < ULL
      ==> GuidedFor(end, step, chunk, nthreads, ranges[i])
  }

  /** Every range of every interleaving has the guided size. */
  lemma GuidedSizes(l: Loop, end: int, evs: seq<CasEvent>, nthreads: nat)
    requires Guided(l, nthreads) && EndsAt(l, end)
    ensures SizesFor(end, Step(l), Wrap(l.chunkSize), nthreads, WordRun(l, evs, nthreads).ranges)
  {
    var pos, handed := RunOk(l, evs, nthreads);
    var ranges := RangesOf(l, handed);
    forall i | 0 <= i < |ranges| && StepsTo(ranges[i].lo, end, Step(l)) + nthreads - 1 < ULL
      ensures GuidedFor(end, Step(l), Wrap(l.chunkSize), nthreads, ranges[i])
    {
      if i < |handed| - 1 { Ordered(handed, pos, i, |handed| - 1); }
      SizedRange(l, end, nthreads, handed[i]);
    }
  }

  // ---------- A minimal chunk of 0 ----------

  /** One undisturbed call by thread 0. */
  lemma OneCall(l: Loop, evs: seq<CasEvent>, nthreads: nat, x: int) returns (evs': seq<CasEvent>)
    requires Valid(l) && nthreads > 0 && x != l.end
    requires var s := WordRun(l, evs, nthreads); s.next == x && s.seen == map[]
    ensures var s, s', nend := WordRun(l, evs, nthreads), WordRun(l, evs', nthreads), GuidedNext(l, x, nthreads);
      s'.next == nend && s'.seen == map[] && s'.ranges == s.ranges + [Part(x, nend)]
  {
    var e1 := evs + [Enter(0)];
    evs' := e1 + [Attempt(0)];
    assert e1[..|evs|] == evs && evs'[..|e1|] == e1;
    assert WordRun(l, evs', nthreads).seen == map[];
  }

  lemma EmptyRange(l: Loop, ranges: seq<Part>, x: int)
    requires Valid(l)
    ensures !Right(l, ranges + [Part(x, x)])
  {
    assert (ranges + [Part(x, x)])[|ranges|] == Part(x, x);
  }

  /** With a minimal chunk of 0 the equal share alone counts. */
  lemma ZeroNext(l: Loop, pos: int, nthreads: nat, n: int, q: int)
    requires Valid(l) && nthreads > 0 && l.chunkSize == 0 && 0 <= pos < Length(l)
    requires n == (Length(l) - pos) / Dist(l) && q == Asked(n, 0, nthreads)
    ensures 0 <= q <= n && GuidedNext(l, ValueAt(l, pos), nthreads) == ValueAt(l, pos + Times(q, Dist(l)))
    ensures pos + Times(q, Dist(l)) <= Length(l)
  {
    LengthInSteps(Length(l) - pos, Dist(l));
    ShareBounds(n, nthreads);
    StepsLeftIs(l, pos);
    AskedMoves(l, pos, nthreads, q);
  }

  lemma ForwardSteps(pos: int, q: int, d: int)
    requires d > 0 && q > 0 && pos >= 0 && pos % d == 0
    ensures pos < pos + Times(q, d) && (pos + Times(q, d)) % d == 0
  {
    TimesMono(1, q, d);
    ExactMultiple(q, d);
    ModSum(pos, Times(q, d), d);
  }

  lemma LengthInSteps(length: int, d: int)
    requires d > 0 && length >= 0
    ensures 0 <= length / d <= length
  {
    var n := length / d;
    assert length == n * d + length % d;
    Cancel(-1, n, d);
    MulMono(1, d, n);
    assert d * n == n * d;
  }

  /** With steps that do not lead to the end, the last iteration is handed out as an empty range. */
  lemma {:induction false} Stuck(l: Loop, evs: seq<CasEvent>, nthreads: nat, pos: int) returns (evs': seq<CasEvent>)
    requires Valid(l) && nthreads > 0 && l.chunkSize == 0 && 0 <= pos < Length(l) && pos % Dist(l) == 0
    requires Length(l) % Dist(l) != 0 || Asked((Length(l) - pos) / Dist(l), 0, nthreads) == 0
    requires var s := WordRun(l, evs, nthreads); s.next == ValueAt(l, pos) && s.seen == map[]
    ensures !Right(l, WordRun(l, evs', nthreads).ranges)
    decreases Length(l) - pos
  {
    var q := Asked((Length(l) - pos) / Dist(l), 0, nthreads);
    evs' := OneCall(l, evs, nthreads, ValueAt(l, pos));
    ZeroNext(l, pos, nthreads, (Length(l) - pos) / Dist(l), q);
    if q == 0 {
      assert Times(0, Dist(l)) == 0;
      EmptyRange(l, WordRun(l, evs, nthreads).ranges, ValueAt(l, pos));
    } else {
      ForwardSteps(pos, q, Dist(l));
      evs' := Stuck(l, evs', nthreads, pos + Times(q, Dist(l)));
    }
  }

  lemma GuidedUnfit(l: Loop, nthreads: nat) returns (evs: seq<CasEvent>)
    requires Valid(l) && nthreads > 0 && !Moves(l, nthreads)
    ensures !Right(l, WordRun(l, evs, nthreads).ranges)
  {
    LengthInSteps(Length(l), Dist(l));
    ShareBounds(Length(l) / Dist(l), nthreads);
    evs := Stuck(l, [], nthreads, 0);
  }

  /** Exactly when the guided schedule is right in every run. */
  lemma GuidedExact(l: Loop, nthreads: nat)
    requires Valid(l) && nthreads > 0
    ensures Moves(l, nthreads) <==> forall evs :: Right(l, WordRun(l, evs, nthreads).ranges)
  {
    if Moves(l, nthreads) {
      forall evs ensures Right(l, WordRun(l, evs, nthreads).ranges) { GuidedTheorem(l, evs, nthreads); }
    } else {
      var evs := GuidedUnfit(l, nthreads);
    }
  }

  // ---------- From the loop statement ----------

  /** gomp_loop_init and gomp_loop_ull_init with GFS_GUIDED: the chunk is kept as it is. */
  function GuidedInit(start: int, end: int, incr: int, chunk: int): Loop {
    LoopInit(start, end, incr, chunk, 0).(chunkSize := chunk, fast := false)
  }

  function UllGuidedInit(up: bool, start: nat, end: nat, incr: nat, chunk: nat): Loop {
    UllInit(up, start, end, incr, chunk, 0).(chunkSize := chunk, fast := false)
  }

  ghost predicate GuidedRight(l: Loop, end: int, nthreads: nat)
    requires nthreads > 0 && l.incr != 0 && (!l.signed && !l.up ==> 0 < l.incr < ULL)
  {
    forall evs ::
      var s := WordRun(l, evs, nthreads);
      && RightFor(l.start, end, Step(l), s.ranges) && (s.refused != {} ==> AllRunFor(l.start, end, Step(l), s.ranges))
  }

  lemma GuidedStatement(l: Loop, end: int, nthreads: nat)
    requires Valid(l) && EndsAt(l, end) && nthreads > 0
    ensures GuidedRight(l, end, nthreads) <==> Moves(l, nthreads)
  {
    if Moves(l, nthreads) {
      forall evs
        ensures var s := WordRun(l, evs, nthreads);
          RightFor(l.start, end, Step(l), s.ranges) && (s.refused != {} ==> AllRunFor(l.start, end, Step(l), s.ranges))
      {
        GuidedTheorem(l, evs, nthreads);
        StatementIs(l, end, WordRun(l, evs, nthreads).ranges);
      }
    } else {
      var evs := GuidedUnfit(l, nthreads);
      StatementIs(l, end, WordRun(l, evs, nthreads).ranges);
      assert !RightFor(l.start, end, Step(l), WordRun(l, evs, nthreads).ranges);
    }
  }

  /** Exactly when the guided schedule of a loop statement is right in every run, and then every range has its
      share; the minimal chunk counts as an unsigned word. */
  lemma GuidedLoopExact(start: int, end: int, incr: int, chunk: int, nthreads: nat)
    requires InWord(true, start) && InWord(true, end) && InWord(true, incr) && incr != 0 && InWord(true, chunk)
    requires -LONG_MAX <= end - start <= LONG_MAX && nthreads > 0
    ensures var l := GuidedInit(start, end, incr, chunk);
      && l.start == start && Step(l) == incr && (GuidedRight(l, end, nthreads) <==> Moves(l, nthreads))
      && (chunk != 0 ==> Moves(l, nthreads))
      && (Moves(l, nthreads) ==> forall evs :: SizesFor(end, incr, Wrap(chunk), nthreads, WordRun(l, evs, nthreads).ranges))
  {
    var l := GuidedInit(start, end, incr, chunk);
    LoopInitValid(start, end, incr, chunk, 0);
    LoopInitFor(start, end, incr, chunk, 0);
    GuidedStatement(l, end, nthreads);
    if Moves(l, nthreads) {
      forall evs ensures SizesFor(end, incr, Wrap(chunk), nthreads, WordRun(l, evs, nthreads).ranges) {
        GuidedSizes(l, end, evs, nthreads);
      }
    }
  }

  lemma UllGuidedLoopExact(up: bool, start: nat, end: nat, incr: nat, chunk: nat, nthreads: nat)
    requires start < ULL && end < ULL && 0 < incr < ULL && chunk < ULL && nthreads > 0
    ensures var l, step := UllGuidedInit(up, start, end, incr, chunk), UllStep(up, incr);
      && l.start == start && Step(l) == step && (GuidedRight(l, end, nthreads) <==> Moves(l, nthreads))
      && (chunk != 0 ==> Moves(l, nthreads))
      && (Moves(l, nthreads) ==> forall evs :: SizesFor(end, step, chunk, nthreads, WordRun(l, evs, nthreads).ranges))
  {
    var l, step := UllGuidedInit(up, start, end, incr, chunk), UllStep(up, incr);
    UllInitValid(up, start, end, incr, chunk, 0);
    UllInitFor(up, start, end, incr, chunk, 0);
    GuidedStatement(l, end, nthreads);
    WrapHolds(chunk);
    if Moves(l, nthreads) {
      forall evs ensures SizesFor(end, step, chunk, nthreads, WordRun(l, evs, nthreads).ranges) {
        GuidedSizes(l, end, evs, nthreads);
      }
    }
  }

  /** Steps of 3 do not lead from 0 to 10: with a minimal chunk of 0 two threads never run the last iteration. */
  lemma ZeroChunk()
    ensures var l := GuidedInit(0, 10, 3, 0); Valid(l) && !Moves(l, 2)
  {
  }
}
