/** Dynamic hand-out of loop iterations by fetch and add and by compare and swap, in the words of the machine
    (iter.c, iter_ull.c). */
module DynamicLoop {
  import opened BitFields
  import opened Words
  import opened Iterations
  import opened HandOut
  import opened LoopWords

  /** A distance in the direction of the loop, as the word that is added to ws->next. */
  function Offset(l: Loop, c: int): int {
    Word(l.signed, if l.up then c else -c)
  }

  lemma SizeIsOffset(l: Loop)
    requires Valid(l)
    ensures Offset(l, Size(l)) == l.chunkSize
  {
  }

  lemma AddOffset(l: Loop, pos: int, c: int)
    requires InWord(l.signed, ValueAt(l, pos + c))
    ensures Word(l.signed, ValueAt(l, pos) + Offset(l, c)) == ValueAt(l, pos + c)
  {
    WordSum(l.signed, ValueAt(l, pos), if l.up then c else -c);
    WordHolds(l.signed, ValueAt(l, pos + c));
  }

  // ---------- Fetch and add ----------

  /** gomp_iter_dynamic_next and gomp_iter_ull_dynamic_next on the fast path: what a thread makes of the fetched
      `tmp`. */
  function FetchNext(l: Loop, tmp: int): (bool, int, int) {
    var nend := Word(l.signed, tmp + l.chunkSize);
    if l.up then
      if tmp >= l.end then (false, 0, 0) else (true, tmp, if nend > l.end then l.end else nend)
    else
      if tmp <= l.end then (false, 0, 0) else (true, tmp, if nend < l.end then l.end else nend)
  }

  /** ws->next, the threads that were refused, and the ranges handed out. */
  datatype Fetch = Fetch(next: int, refused: set<Thread>, ranges: seq<Part>)

  function FetchStep(l: Loop, s: Fetch, t: Thread): Fetch {
    var r := FetchNext(l, s.next);
    Fetch(Word(l.signed, s.next + l.chunkSize), if r.0 then s.refused else s.refused + {t},
          if r.0 then s.ranges + [Part(r.1, r.2)] else s.ranges)
  }

  function FetchRun(l: Loop, ts: seq<Thread>): Fetch {
    if ts == [] then Fetch(l.start, {}, []) else FetchStep(l, FetchRun(l, ts[..|ts| - 1]), ts[|ts| - 1])
  }

  /** Each thread belongs to the team and asks again only while it has not been refused. */
  predicate FetchTeam(l: Loop, n: nat, ts: seq<Thread>) {
    forall k :: 0 <= k < |ts| ==> ts[k] < n && ts[k] !in FetchRun(l, ts[..k]).refused
  }

  /** What an account in positions says in words. */
  function Image(l: Loop, s: Share): Fetch {
    Fetch(ValueAt(l, s.pos), s.refused, RangesOf(l, s.handed))
  }

  lemma RangesGrow(l: Loop, handed: seq<Chunk>, c: Chunk)
    ensures RangesOf(l, handed + [c]) == RangesOf(l, handed) + [RangeOf(l, c)]
  {
  }

  /** One fetch-and-add is one step of the account, up or down, signed or not. */
  lemma FetchStepIs(l: Loop, s: Share, t: Thread)
    requires Valid(l) && Size(l) >= 0 && InWord(l.signed, ValueAt(l, s.pos + Size(l)))
    ensures FetchStep(l, Image(l, s), t) == Image(l, Take(s, t, Size(l), Length(l)))
  {
    SizeIsOffset(l);
    AddOffset(l, s.pos, Size(l));
    RangesGrow(l, s.handed, Chunk(s.pos, Min(s.pos + Size(l), Length(l))));
  }

  lemma InRoom(l: Loop, n: nat, pos: int)
    requires Valid(l) && Roomy(l, n) && 0 <= pos <= Length(l) + Times(n + 1, Size(l))
    ensures InWord(l.signed, ValueAt(l, pos))
  {
  }

  lemma FetchTeamBefore(l: Loop, n: nat, ts: seq<Thread>)
    requires FetchTeam(l, n, ts) && ts != []
    ensures FetchTeam(l, n, ts[..|ts| - 1]) && ts[|ts| - 1] < n && ts[|ts| - 1] !in FetchRun(l, ts[..|ts| - 1]).refused
  {
    var before := ts[..|ts| - 1];
    forall k | 0 <= k < |before| ensures before[k] < n && before[k] !in FetchRun(l, before[..k]).refused {
      assert before[..k] == ts[..k] && before[k] == ts[k];
    }
  }

  /** With room, no addition wraps in any run of the team, and the run is that of the account. */
  lemma {:induction false} FetchRunIs(l: Loop, n: nat, ts: seq<Thread>)
    requires Valid(l) && Roomy(l, n) && FetchTeam(l, n, ts)
    ensures TeamRun(ts, n, Size(l), Length(l))
    ensures FetchRun(l, ts) == Image(l, TakeAll(ts, Size(l), Length(l)))
    ensures InWord(l.signed, ValueAt(l, TakeAll(ts, Size(l), Length(l)).pos))
  {
    if ts == [] {
      assert RangesOf(l, []) == [];
    } else {
      var before, t := ts[..|ts| - 1], ts[|ts| - 1];
      FetchTeamBefore(l, n, ts);
      FetchRunIs(l, n, before);
      FetchRunGrows(l, n, before, t);
      assert ts == before + [t];
    }
  }

  lemma FetchRunGrows(l: Loop, n: nat, before: seq<Thread>, t: Thread)
    requires Valid(l) && Roomy(l, n) && TeamRun(before, n, Size(l), Length(l)) && t < n
    requires FetchRun(l, before) == Image(l, TakeAll(before, Size(l), Length(l))) && t !in FetchRun(l, before).refused
    ensures var ts := before + [t];
      && TeamRun(ts, n, Size(l), Length(l)) && FetchRun(l, ts) == Image(l, TakeAll(ts, Size(l), Length(l)))
      && InWord(l.signed, ValueAt(l, TakeAll(ts, Size(l), Length(l)).pos))
  {
    var c, end, ts := Size(l), Length(l), before + [t];
    RunGrows(before, t, n, c, end);
    CounterBound(ts, n, c, end);
    InRoom(l, n, TakeAll(ts, c, end).pos);
    FetchStepIs(l, TakeAll(before, c, end), t);
    assert ts[..|ts| - 1] == before;
  }

  /** In every run of the team: ws->next never leaves its word; and if the chunk size fits, every range begins at
      an iteration, no iteration is run twice, and after a refusal all are run. */
  lemma FetchAddTheorem(l: Loop, n: nat, ts: seq<Thread>)
    requires Valid(l) && Roomy(l, n) && FetchTeam(l, n, ts)
    ensures exists pos :: FetchRun(l, ts).next == ValueAt(l, pos) && 0 <= pos <= Length(l) + Times(n + 1, Size(l)) && InWord(l.signed, ValueAt(l, pos))
    ensures Fit(l) ==> Right(l, FetchRun(l, ts).ranges)
    ensures Fit(l) && FetchRun(l, ts).refused != {} ==> AllRun(l, FetchRun(l, ts).ranges)
  {
    FetchRunIs(l, n, ts);
    CounterBound(ts, n, Size(l), Length(l));
    assert FetchRun(l, ts).next == ValueAt(l, TakeAll(ts, Size(l), Length(l)).pos);
    if Fit(l) { FetchFits(l, TakeAll(ts, Size(l), Length(l)), ts); }
  }

  lemma FetchFits(l: Loop, s: Share, ts: seq<Thread>)
    requires Valid(l) && Size(l) >= 0 && Fit(l) && s == TakeAll(ts, Size(l), Length(l))
    ensures Right(l, RangesOf(l, s.handed)) && (s.refused != {} ==> AllRun(l, RangesOf(l, s.handed)))
  {
    TakeAllOk(ts, Size(l), Length(l));
    FitRight(l, s.handed, Min(s.pos, Length(l)), Size(l));
  }

  /** Locked chunks of a size that fits are right. */
  lemma FitRight(l: Loop, handed: seq<Chunk>, upto: int, c: int)
    requires Valid(l) && FitSize(l, c) && EndToEnd(handed, upto) && Locked(handed, c, Length(l)) && upto <= Length(l)
    ensures Right(l, RangesOf(l, handed)) && (upto == Length(l) ==> AllRun(l, RangesOf(l, handed)))
  {
    forall i | 0 <= i < |handed| ensures handed[i].lo >= 0 && handed[i].lo % Dist(l) == 0 {
      BeginsAt(handed, upto, c, Length(l), i);
      if i > 0 { Ordered(handed, upto, 0, i); }
      Aligned(handed, upto, c, Length(l), Dist(l), i);
    }
    AccountRight(l, handed, upto);
  }

  /** A chunk size that does not fit goes wrong at the first range, which is empty, or at the second, which begins
      between two iterations. */
  lemma FetchUnfit(l: Loop, n: nat) returns (ts: seq<Thread>)
    requires Valid(l) && Roomy(l, n) && n > 0 && !Fit(l)
    ensures FetchTeam(l, n, ts) && !Right(l, FetchRun(l, ts).ranges)
  {
    var c, end := Size(l), Length(l);
    assert RangesOf(l, []) == [];
    FirstTake(l, n);
    var one := FetchRun(l, [0]);
    if c == 0 {
      ts := [0];
      assert one.ranges[0] == Part(l.start, l.start) && !RangeOk(l, one.ranges[0]);
    } else {
      ts := [0, 0];
      SecondTake(l, n);
      BetweenSteps(l, c, ValueAt(l, Min(c + c, end)));
    }
  }

  /** The first chunk of the loop, as the account sees it. */
  function FirstChunk(l: Loop): Chunk {
    Chunk(0, Min(Size(l), Length(l)))
  }

  lemma FirstShare(c: int, end: int)
    requires 0 < end
    ensures TakeAll([0], c, end) == Share(c, {}, [Chunk(0, Min(c, end))]) && TakeAll([], c, end) == Share(0, {}, [])
  {
    assert [0][..0] == [];
    assert TakeAll([0], c, end) == Take(TakeAll([], c, end), 0, c, end);
  }

  lemma FirstTake(l: Loop, n: nat)
    requires Valid(l) && Roomy(l, n) && n > 0 && 0 < Length(l)
    ensures TeamRun([0], n, Size(l), Length(l)) && FetchTeam(l, n, [0])
    ensures FetchRun(l, [0]) == Image(l, TakeAll([0], Size(l), Length(l))) && FetchRun(l, [0]).refused == {}
    ensures FetchRun(l, [0]).ranges == [RangeOf(l, FirstChunk(l))]
  {
    FirstShare(Size(l), Length(l));
    assert RangesOf(l, []) == [];
    assert FetchRun(l, []) == Fetch(l.start, {}, []);
    FetchRunGrows(l, n, [], 0);
    TeamGrows(l, n, [], 0);
    assert [] + [0] == [0];
    assert RangesOf(l, [FirstChunk(l)]) == [RangeOf(l, FirstChunk(l))];
  }

  lemma SecondTake(l: Loop, n: nat)
    requires Valid(l) && Roomy(l, n) && n > 0 && 0 < Size(l) < Length(l)
    ensures FetchTeam(l, n, [0, 0]) && |FetchRun(l, [0, 0]).ranges| == 2
    ensures FetchRun(l, [0, 0]).ranges[1] == RangeOf(l, Chunk(Size(l), Min(Size(l) + Size(l), Length(l))))
  {
    var c, end := Size(l), Length(l);
    FirstTake(l, n);
    FirstShare(c, end);
    FetchRunGrows(l, n, [0], 0);
    RunGrows([0], 0, n, c, end);
    FetchStepIs(l, TakeAll([0], c, end), 0);
    TeamGrows(l, n, [0], 0);
    assert [0] + [0] == [0, 0];
  }

  /** The fast path hands out the iterations rightly in every run if and only if the chunk size fits. */
  lemma FetchAddExact(l: Loop, n: nat)
    requires Valid(l) && Roomy(l, n) && n > 0
    ensures Fit(l) <==> forall ts :: FetchTeam(l, n, ts) ==> Right(l, FetchRun(l, ts).ranges)
  {
    if Fit(l) {
      forall ts | FetchTeam(l, n, ts) ensures Right(l, FetchRun(l, ts).ranges) { FetchAddTheorem(l, n, ts); }
    } else {
      var ts := FetchUnfit(l, n);
    }
  }

  // ---------- Sizes that do not fit ----------

  lemma ProductsWrap()
    ensures Wrap(Times(0x5555_5555_5555_5556, 3)) == 2 && Wrap(Times(0x4000_0000_0000_0000, 4)) == 0
    ensures Word(true, Times(0x4000_0000_0000_0000, 4)) == 0
  {
  }

  lemma CheapTests()
    ensures Or(4, 2) < Pow2(31) && Or(4, 0) < Pow2(31)
  {
    Pow2At31();
    assert Or(4, 2) == 6 && Or(4, 0) == 4;
  }

  /** Steps of 3 with a chunk of 0x5555555555555556: the product wraps to 2 and the fast bit is set. */
  lemma WrapsToTwo()
    ensures var l := UllInit(true, 0, 100, 3, 0x5555_5555_5555_5556, 4); l.chunkSize == 2 && l.fast && Valid(l) && !Fit(l)
  {
    ProductsWrap();
    CheapTests();
    assert Times(5, 2) == 10;
  }

  /** Steps of 4 with a chunk of 2^62: the product wraps to 0, the fast mode is set, signed or not, and every
      thread is given the empty range at the start for ever. */
  lemma WrapsToZero()
    ensures var l := UllInit(true, 0, 100, 4, 0x4000_0000_0000_0000, 4);
      l.chunkSize == 0 && l.fast && Valid(l) && !Fit(l) && FetchNext(l, 0) == (true, 0, 0) && FetchStep(l, Fetch(0, {}, []), 0).next == 0
    ensures var l := LoopInit(0, 100, 4, 0x4000_0000_0000_0000, 4);
      l.chunkSize == 0 && l.fast && Valid(l) && !Fit(l) && FetchNext(l, 0) == (true, 0, 0)
  {
    ProductsWrap();
    CheapTests();
    assert Times(5, 0) == 0;
  }

  // ---------- The locked version and compare and swap ----------

  /** The chunk is cut down to what is left; increasing and decreasing loops compare the other way round. */
  function Clamp(l: Loop, chunk: int, left: int): int {
    if l.up then (if chunk > left then left else chunk) else (if chunk < left then left else chunk)
  }

  /** gomp_iter_dynamic_next_locked and gomp_iter_ull_dynamic_next_locked. */
  function LockedNext(l: Loop, next: int): (bool, int, int) {
    if next == l.end then (false, 0, 0)
    else (true, next, Word(l.signed, next + Clamp(l, l.chunkSize, Word(l.signed, l.end - next))))
  }

  /** One pass of the retry loop: refused, or the clamped chunk and the value to swap in. */
  datatype Tried = Refused | Tried(chunk: int, nend: int)

  function CasTry(l: Loop, start: int, chunk: int): Tried {
    if start == l.end then Refused
    else
      var cut := Clamp(l, chunk, Word(l.signed, l.end - start));
      Tried(cut, Word(l.signed, start + cut))
  }

  /** `start` and `chunk` of a thread in the loop, and the shared counter. */
  datatype CasVars = CasVars(start: int, chunk: int)

  datatype CasWords = CasWords(next: int, locals: map<Thread, CasVars>, refused: set<Thread>, ranges: seq<Part>)

  function CasWordStep(l: Loop, s: CasWords, ev: CasEvent): CasWords {
    match ev
    case Enter(t) => if t in s.locals then s else s.(locals := s.locals[t := CasVars(s.next, l.chunkSize)])
    case Attempt(t) =>
      if t !in s.locals then s
      else
        var v := s.locals[t];
        match CasTry(l, v.start, v.chunk)
        case Refused => s.(locals := s.locals - {t}, refused := s.refused + {t})
        case Tried(cut, nend) =>
          if s.next == v.start then CasWords(nend, s.locals - {t}, s.refused, s.ranges + [Part(v.start, nend)])
          else s.(locals := s.locals[t := CasVars(s.next, cut)])
  }

  function CasRun(l: Loop, evs: seq<CasEvent>): CasWords {
    if evs == [] then CasWords(l.start, map[], {}, []) else CasWordStep(l, CasRun(l, evs[..|evs| - 1]), evs[|evs| - 1])
  }

  /** The chunk as the retry loop sees it: the word 0 of a decreasing unsigned loop stands for 2^64. */
  function CasSize(l: Loop): int {
    if !l.signed && !l.up then ULL - l.chunkSize else Size(l)
  }

  predicate CasFit(l: Loop)
    requires Step(l) != 0
  {
    FitSize(l, CasSize(l))
  }

  /** Distances whose offsets are words in their order. */
  predicate InOffset(l: Loop, c: int) {
    0 < c && if l.signed then InWord(true, if l.up then c else -c) else c < ULL || (!l.up && c == ULL)
  }

  lemma ClampOffset(l: Loop, a: int, b: int)
    requires InOffset(l, a) && InOffset(l, b)
    ensures Clamp(l, Offset(l, a), Offset(l, b)) == Offset(l, Min(a, b))
  {
  }

  lemma CasSizeIsOffset(l: Loop)
    requires Valid(l)
    ensures Offset(l, CasSize(l)) == l.chunkSize && (CasSize(l) > 0 ==> InOffset(l, CasSize(l)))
  {
  }

  lemma LeftIsOffset(l: Loop, pos: int)
    requires Valid(l) && 0 <= pos <= Length(l)
    ensures Word(l.signed, l.end - ValueAt(l, pos)) == Offset(l, Length(l) - pos)
    ensures pos < Length(l) ==> InOffset(l, Length(l) - pos) && ValueAt(l, pos) != l.end
    ensures ValueAt(l, Length(l)) == l.end && InWord(l.signed, ValueAt(l, pos))
  {
  }

  /** A pass of the loop, in positions. */
  lemma TryIs(l: Loop, start: int, chunk: int)
    requires Valid(l) && 0 <= start <= Length(l) && (start < Length(l) ==> InOffset(l, chunk))
    ensures CasTry(l, ValueAt(l, start), Offset(l, chunk))
         == if start == Length(l) then Refused
            else Tried(Offset(l, Min(chunk, Length(l) - start)), ValueAt(l, start + Min(chunk, Length(l) - start)))
  {
    LeftIsOffset(l, start);
    if start < Length(l) {
      var m := Min(chunk, Length(l) - start);
      ClampOffset(l, chunk, Length(l) - start);
      LeftIsOffset(l, start + m);
      AddOffset(l, start, m);
    }
  }

  /** The locked version hands out a chunk, or what is left, up or down, signed or not. */
  lemma LockedIs(l: Loop, pos: int)
    requires Valid(l) && 0 <= pos < Length(l) && CasSize(l) > 0
    ensures LockedNext(l, ValueAt(l, pos)) == (true, ValueAt(l, pos), ValueAt(l, pos + LockedSize(pos, CasSize(l), Length(l))))
  {
    CasSizeIsOffset(l);
    TryIs(l, pos, CasSize(l));
    LeftIsOffset(l, pos);
  }

  function VarsOf(l: Loop, v: Local): CasVars {
    CasVars(ValueAt(l, v.start), Offset(l, v.chunk))
  }

  function CasImage(l: Loop, s: CasState): CasWords {
    CasWords(ValueAt(l, s.pos), AllVars(l, s.locals), s.refused, RangesOf(l, s.handed))
  }

  function AllVars(l: Loop, locals: map<Thread, Local>): map<Thread, CasVars> {
    map t | t in locals :: VarsOf(l, locals[t])
  }

  lemma VarsChange(l: Loop, locals: map<Thread, Local>, t: Thread, v: Local)
    ensures AllVars(l, locals[t := v]) == AllVars(l, locals)[t := VarsOf(l, v)]
    ensures AllVars(l, locals - {t}) == AllVars(l, locals) - {t}
  {
  }

  lemma SameValue(l: Loop, a: int, b: int)
    ensures ValueAt(l, a) == ValueAt(l, b) <==> a == b
  {
  }

  lemma LocalInOffset(l: Loop, v: Local, pos: int)
    requires Valid(l) && LocalOk(v, pos, CasSize(l), Length(l)) && CasSize(l) > 0 && v.start < Length(l)
    ensures InOffset(l, v.chunk)
  {
    CasSizeIsOffset(l);
  }

  lemma EnterIs(l: Loop, s: CasState, t: Thread)
    requires Valid(l)
    ensures CasWordStep(l, CasImage(l, s), Enter(t)) == CasImage(l, CasStep(s, Enter(t), CasSize(l), Length(l)))
  {
    CasSizeIsOffset(l);
    VarsChange(l, s.locals, t, Local(s.pos, CasSize(l)));
  }

  lemma AttemptIs(l: Loop, s: CasState, t: Thread, v: Local)
    requires Valid(l) && t in s.locals && v == s.locals[t] && LocalOk(v, s.pos, CasSize(l), Length(l)) && (CasSize(l) > 0 || Length(l) == 0)
    ensures CasWordStep(l, CasImage(l, s), Attempt(t)) == CasImage(l, CasStep(s, Attempt(t), CasSize(l), Length(l)))
  {
    var end := Length(l);
    var cut := Min(v.chunk, end - v.start);
    if v.start < end { LocalInOffset(l, v, s.pos); }
    TryIs(l, v.start, v.chunk);
    SameValue(l, s.pos, v.start);
    RangesGrow(l, s.handed, Chunk(v.start, v.start + cut));
    VarsChange(l, s.locals, t, Local(s.pos, cut));
  }

  /** One step of the retry loop in words is one step in positions. */
  lemma CasStepIs(l: Loop, s: CasState, ev: CasEvent)
    requires Valid(l) && CasOk(s, CasSize(l), Length(l)) && (CasSize(l) > 0 || Length(l) == 0)
    ensures CasWordStep(l, CasImage(l, s), ev) == CasImage(l, CasStep(s, ev, CasSize(l), Length(l)))
  {
    match ev
    case Enter(t) => EnterIs(l, s, t);
    case Attempt(t) =>
      if t in s.locals { AttemptIs(l, s, t, s.locals[t]); } else { assert t !in AllVars(l, s.locals); }
  }

  /** The run in positions. */
  function CasAll(evs: seq<CasEvent>, c: int, end: int): CasState {
    if evs == [] then CasState(0, map[], {}, []) else CasStep(CasAll(evs[..|evs| - 1], c, end), evs[|evs| - 1], c, end)
  }

  lemma {:induction false} CasRunIs(l: Loop, evs: seq<CasEvent>)
    requires Valid(l) && (CasSize(l) > 0 || Length(l) == 0)
    ensures CasOk(CasAll(evs, CasSize(l), Length(l)), CasSize(l), Length(l))
    ensures CasRun(l, evs) == CasImage(l, CasAll(evs, CasSize(l), Length(l)))
  {
    var c, end := CasSize(l), Length(l);
    if evs == [] {
      assert RangesOf(l, []) == [];
    } else {
      var before, ev := evs[..|evs| - 1], evs[|evs| - 1];
      CasRunIs(l, before);
      CasKeeps(CasAll(before, c, end), ev, c, end);
      CasStepIs(l, CasAll(before, c, end), ev);
    }
  }

  /** In every interleaving of the retry loops, if the chunk size fits: every range is the one the locked version
      hands out at that value, although a clamped chunk is kept across retries; it begins at an iteration; no
      iteration is run twice; and after a refusal all are run. */
  lemma CasRefinesLocked(l: Loop, evs: seq<CasEvent>)
    requires Valid(l) && CasFit(l)
    ensures var s := CasRun(l, evs);
      && Right(l, s.ranges) && (s.refused != {} ==> AllRun(l, s.ranges))
      && forall i :: 0 <= i < |s.ranges| ==> LockedNext(l, s.ranges[i].lo) == (true, s.ranges[i].lo, s.ranges[i].hi)
  {
    var c, end := CasSize(l), Length(l);
    CasRunIs(l, evs);
    var a := CasAll(evs, c, end);
    FitRight(l, a.handed, a.pos, c);
    forall i | 0 <= i < |a.handed|
      ensures var r := RangesOf(l, a.handed)[i]; LockedNext(l, r.lo) == (true, r.lo, r.hi)
    {
      RangeIsLocked(l, a.handed, a.pos, i);
    }
  }

  lemma RangeIsLocked(l: Loop, handed: seq<Chunk>, upto: int, i: nat)
    requires Valid(l) && EndToEnd(handed, upto) && Locked(handed, CasSize(l), Length(l)) && upto <= Length(l) && i < |handed|
    ensures var r := RangeOf(l, handed[i]); LockedNext(l, r.lo) == (true, r.lo, r.hi)
  {
    BeginsAt(handed, upto, CasSize(l), Length(l), i);
    if i > 0 { Ordered(handed, upto, 0, i); }
    LockedIs(l, handed[i].lo);
  }

  /** A signed chunk that leads backward: the first range runs nothing or passes the end. */
  lemma BackwardRange(l: Loop)
    requires Valid(l) && l.signed && Size(l) <= 0 && 0 < Length(l)
    ensures var r := LockedNext(l, l.start); r.0 && !RangeOk(l, Part(r.1, r.2))
  {
    WordHolds(true, l.end - l.start);
    var x := l.start + l.chunkSize;
    if InWord(true, x) { WordHolds(true, x); } else { WordAround(true, x); }
  }

  lemma CasFirst(l: Loop)
    requires Valid(l) && 0 < Length(l)
    ensures var r := LockedNext(l, l.start); r.0 && CasRun(l, [Enter(0), Attempt(0)]).ranges == [Part(r.1, r.2)]
  {
    var evs := [Enter(0), Attempt(0)];
    assert evs[..1] == [Enter(0)] && evs[..1][..0] == [];
    assert CasRun(l, []) == CasWords(l.start, map[], {}, []);
    assert CasRun(l, evs[..1]) == CasWordStep(l, CasRun(l, []), Enter(0));
  }

  lemma CasSecond(l: Loop)
    requires Valid(l) && 0 < CasSize(l) < Length(l)
    ensures var s := CasRun(l, [Enter(0), Attempt(0), Enter(0), Attempt(0)]);
      |s.ranges| == 2 && s.ranges[1].lo == ValueAt(l, CasSize(l))
  {
    var c, end := CasSize(l), Length(l);
    var evs := [Enter(0), Attempt(0), Enter(0), Attempt(0)];
    CasRunIs(l, evs);
    assert evs[..3][..2] == evs[..2] && evs[..2][..1] == evs[..1] && evs[..1][..0] == [];
    assert CasAll([], c, end) == CasState(0, map[], {}, []);
    var a := CasAll(evs[..1], c, end);
    assert a == CasStep(CasAll([], c, end), Enter(0), c, end);
    var b := CasAll(evs[..2], c, end);
    assert b == CasStep(a, Attempt(0), c, end) && b.pos == c && b.locals == map[] && b.handed == [Chunk(0, c)];
    var d := CasAll(evs[..3], c, end);
    assert d == CasStep(b, Enter(0), c, end);
    assert CasAll(evs, c, end) == CasStep(d, Attempt(0), c, end);
  }

  /** A chunk size that does not fit goes wrong on the retry loop, too. */
  lemma CasUnfit(l: Loop) returns (evs: seq<CasEvent>)
    requires Valid(l) && !CasFit(l)
    ensures !Right(l, CasRun(l, evs).ranges)
  {
    if CasSize(l) <= 0 {
      evs := [Enter(0), Attempt(0)];
      CasFirst(l);
      UnfitFirst(l);
      assert !RangeOk(l, CasRun(l, evs).ranges[0]);
    } else {
      evs := [Enter(0), Attempt(0), Enter(0), Attempt(0)];
      CasSecond(l);
      var r := CasRun(l, evs).ranges[1];
      BetweenSteps(l, CasSize(l), r.hi);
      assert r == Part(ValueAt(l, CasSize(l)), r.hi);
      assert !RangeOk(l, CasRun(l, evs).ranges[1]);
    }
  }

  lemma UnfitFirst(l: Loop)
    requires Valid(l) && 0 < Length(l) && CasSize(l) <= 0
    ensures var r := LockedNext(l, l.start); r.0 && !RangeOk(l, Part(r.1, r.2))
  {
    if l.signed {
      BackwardRange(l);
    } else {
      WordHolds(false, l.end - l.start);
      WordHolds(false, l.start);
    }
  }

  /** The retry loops hand out the iterations rightly in every interleaving if and only if the chunk size fits. */
  lemma CasExact(l: Loop)
    requires Valid(l)
    ensures CasFit(l) <==> forall evs :: Right(l, CasRun(l, evs).ranges)
  {
    if CasFit(l) {
      forall evs ensures Right(l, CasRun(l, evs).ranges) { CasRefinesLocked(l, evs); }
    } else {
      var evs := CasUnfit(l);
    }
  }

  // ---------- From the loop statement ----------

  /** What a run has handed out is right for the statement, and complete once a thread was refused. */
  ghost predicate HandedRight(start: int, end: int, step: int, ranges: seq<Part>, refused: set<Thread>) {
    RightFor(start, end, step, ranges) && (refused != {} ==> AllRunFor(start, end, step, ranges))
  }

  /** Every run is right for the statement, on whichever path the mode selects. */
  ghost predicate DynamicRight(l: Loop, n: nat, end: int) {
    if l.fast then FetchesRight(l, n, end) else CasesRight(l, end)
  }

  ghost predicate FetchesRight(l: Loop, n: nat, end: int) {
    forall ts :: FetchTeam(l, n, ts) ==> HandedRight(l.start, end, Step(l), FetchRun(l, ts).ranges, FetchRun(l, ts).refused)
  }

  ghost predicate CasesRight(l: Loop, end: int) {
    forall evs :: HandedRight(l.start, end, Step(l), CasRun(l, evs).ranges, CasRun(l, evs).refused)
  }

  lemma StatementExact(l: Loop, n: nat, end: int)
    requires Valid(l) && EndsAt(l, end) && n > 0 && (l.fast ==> Roomy(l, n))
    ensures DynamicRight(l, n, end) <==> if l.fast then Fit(l) else CasFit(l)
  {
    if l.fast { FetchStatement(l, n, end); } else { CasStatement(l, end); }
  }

  lemma FetchStatement(l: Loop, n: nat, end: int)
    requires Valid(l) && EndsAt(l, end) && n > 0 && Roomy(l, n)
    ensures Fit(l) <==> FetchesRight(l, n, end)
  {
    if Fit(l) {
      forall ts | FetchTeam(l, n, ts)
        ensures HandedRight(l.start, end, Step(l), FetchRun(l, ts).ranges, FetchRun(l, ts).refused)
      {
        FetchAddTheorem(l, n, ts);
        StatementIs(l, end, FetchRun(l, ts).ranges);
      }
    } else {
      var ts := FetchUnfit(l, n);
      StatementIs(l, end, FetchRun(l, ts).ranges);
      assert !HandedRight(l.start, end, Step(l), FetchRun(l, ts).ranges, FetchRun(l, ts).refused);
    }
  }

  lemma CasStatement(l: Loop, end: int)
    requires Valid(l) && EndsAt(l, end)
    ensures CasFit(l) <==> CasesRight(l, end)
  {
    if CasFit(l) {
      forall evs ensures HandedRight(l.start, end, Step(l), CasRun(l, evs).ranges, CasRun(l, evs).refused) {
        CasRefinesLocked(l, evs);
        StatementIs(l, end, CasRun(l, evs).ranges);
      }
    } else {
      var evs := CasUnfit(l);
      StatementIs(l, end, CasRun(l, evs).ranges);
      assert !HandedRight(l.start, end, Step(l), CasRun(l, evs).ranges, CasRun(l, evs).refused);
    }
  }

  /** A signed loop with a dynamic schedule: every range of every run begins at an iteration of the statement, no
      iteration is run twice and all are run after a refusal, if and only if the chunk size fits. */
  lemma DynamicExact(start: int, end: int, incr: int, chunk: int, n: nat)
    requires InWord(true, start) && InWord(true, end) && InWord(true, incr) && incr != 0 && -LONG_MAX <= end - start <= LONG_MAX && n > 0
    ensures var l := LoopInit(start, end, incr, chunk, n);
      && l.start == start && Step(l) == incr
      && (DynamicRight(l, n, end) <==> if l.fast then Fit(l) else CasFit(l))
  {
    var l := LoopInit(start, end, incr, chunk, n);
    LoopInitValid(start, end, incr, chunk, n);
    LoopInitFor(start, end, incr, chunk, n);
    if l.fast { FastIsRoomy(start, end, incr, chunk, n); }
    StatementExact(l, n, end);
  }

  /** An unsigned loop. */
  lemma UllDynamicExact(up: bool, start: nat, end: nat, incr: nat, chunk: nat, n: nat)
    requires start < ULL && end < ULL && 0 < incr < ULL && n > 0
    ensures var l := UllInit(up, start, end, incr, chunk, n);
      && l.start == start && Step(l) == UllStep(up, incr)
      && (DynamicRight(l, n, end) <==> if l.fast then Fit(l) else CasFit(l))
  {
    var l := UllInit(up, start, end, incr, chunk, n);
    UllInitValid(up, start, end, incr, chunk, n);
    UllInitFor(up, start, end, incr, chunk, n);
    if l.fast { UllFastIsRoomy(up, start, end, incr, chunk, n); }
    StatementExact(l, n, end);
  }

  // ---------- The chunks ----------

  /** In every run the i-th range is the i-th chunk of `chunk` iterations of the statement. */
  ghost predicate Chunked(l: Loop, n: nat, end: int, chunk: nat) {
    if l.fast then forall ts :: FetchTeam(l, n, ts) ==> ChunksFor(l.start, end, Step(l), chunk, FetchRun(l, ts).ranges)
    else forall evs :: ChunksFor(l.start, end, Step(l), chunk, CasRun(l, evs).ranges)
  }

  lemma CasSizeIs(l: Loop)
    requires Valid(l) && 0 < Size(l)
    ensures CasSize(l) == Size(l)
  {
  }

  lemma SizedChunks(l: Loop, n: nat, end: int, chunk: nat)
    requires Valid(l) && EndsAt(l, end) && (l.fast ==> Roomy(l, n)) && 0 < Size(l) == Times(chunk, Dist(l))
    ensures Chunked(l, n, end, chunk)
  {
    var c := Size(l);
    if l.fast {
      forall ts | FetchTeam(l, n, ts) ensures ChunksFor(l.start, end, Step(l), chunk, FetchRun(l, ts).ranges) {
        FetchRunIs(l, n, ts);
        TakeAllOk(ts, c, Length(l));
        var s := TakeAll(ts, c, Length(l));
        ChunksForIs(l, end, chunk, s.handed, Min(s.pos, Length(l)), c);
      }
    } else {
      CasSizeIs(l);
      forall evs ensures ChunksFor(l.start, end, Step(l), chunk, CasRun(l, evs).ranges) {
        CasRunIs(l, evs);
        var s := CasAll(evs, c, Length(l));
        ChunksForIs(l, end, chunk, s.handed, s.pos, c);
      }
    }
  }

  /** With a product of chunk and increment that is a long, the loop is divided as section 2.7.1 of OpenMP 4.5
      says: chunks of `chunk` iterations in order, whoever takes them, and the last one cut at the end. */
  lemma DynamicChunks(start: int, end: int, incr: int, chunk: nat, n: nat)
    requires InWord(true, start) && InWord(true, end) && InWord(true, incr) && incr != 0 && -LONG_MAX <= end - start <= LONG_MAX
    requires chunk > 0 && InWord(true, Times(chunk, incr))
    ensures var l := LoopInit(start, end, incr, chunk, n); l.start == start && Step(l) == incr && Chunked(l, n, end, chunk)
  {
    var l := LoopInit(start, end, incr, chunk, n);
    LoopInitValid(start, end, incr, chunk, n);
    LoopInitFor(start, end, incr, chunk, n);
    GuardFits(start, end, incr, chunk, n);
    TimesMono(1, chunk, Dist(l));
    if l.fast { FastIsRoomy(start, end, incr, chunk, n); }
    SizedChunks(l, n, end, chunk);
  }

  lemma UllDynamicChunks(up: bool, start: nat, end: nat, incr: nat, chunk: nat, n: nat)
    requires start < ULL && end < ULL && 0 < incr < ULL && chunk > 0 && Times(chunk, if up then incr else ULL - incr) < ULL
    ensures var l := UllInit(up, start, end, incr, chunk, n);
      l.start == start && Step(l) == UllStep(up, incr) && Chunked(l, n, end, chunk)
  {
    var l := UllInit(up, start, end, incr, chunk, n);
    UllInitValid(up, start, end, incr, chunk, n);
    UllInitFor(up, start, end, incr, chunk, n);
    UllGuardFits(up, start, end, incr, chunk, n);
    TimesMono(1, chunk, Dist(l));
    if l.fast { UllFastIsRoomy(up, start, end, incr, chunk, n); }
    SizedChunks(l, n, end, chunk);
  }

  // ---------- The shared counter, updated in place ----------

  class WorkShare {
    const loop: Loop
    const nthreads: nat
    var next: int
    ghost var run: seq<Thread>

    /** The counter is where the fetches so far have left it. */
    ghost predicate Valid()
      reads this
    {
      FetchTeam(loop, nthreads, run) && next == FetchRun(loop, run).next
    }

    constructor (loop: Loop, nthreads: nat)
      ensures Valid() && this.loop == loop && this.nthreads == nthreads && run == [] && next == loop.start
    {
      this.loop := loop;
      this.nthreads := nthreads;
      next := loop.start;
      run := [];
    }

    /** The fetch-and-add and what follows it. */
    method FastNext() returns (more: bool, pstart: int, pend: int)
      modifies this`next
      ensures (more, pstart, pend) == FetchNext(loop, old(next)) && next == Word(loop.signed, old(next) + loop.chunkSize)
    {
      var tmp := next;
      next := Word(loop.signed, next + loop.chunkSize);
      if (loop.up && tmp >= loop.end) || (!loop.up && tmp <= loop.end) {
        return false, 0, 0;
      }
      var nend := Word(loop.signed, tmp + loop.chunkSize);
      if (loop.up && nend > loop.end) || (!loop.up && nend < loop.end) {
        nend := loop.end;
      }
      return true, tmp, nend;
    }

    /** The fast path of gomp_iter_dynamic_next by thread `t`. */
    method DynamicNext(ghost t: Thread) returns (more: bool, pstart: int, pend: int)
      requires Valid() && t < nthreads && t !in FetchRun(loop, run).refused
      modifies this
      ensures Valid() && run == old(run) + [t]
      ensures FetchRun(loop, run).refused == FetchRun(loop, old(run)).refused + if more then {} else {t}
      ensures FetchRun(loop, run).ranges == FetchRun(loop, old(run)).ranges + if more then [Part(pstart, pend)] else []
    {
      TeamGrows(loop, nthreads, run, t);
      more, pstart, pend := FastNext();
      run := run + [t];
    }

    /** gomp_iter_dynamic_next_locked. */
    method DynamicNextLocked() returns (more: bool, pstart: int, pend: int)
      modifies this`next
      ensures (more, pstart, pend) == LockedNext(loop, old(next))
      ensures next == if more then pend else old(next)
    {
      var start := next;
      if start == loop.end {
        return false, 0, 0;
      }
      var chunk := loop.chunkSize;
      var left := Word(loop.signed, loop.end - start);
      if loop.up {
        if chunk > left { chunk := left; }
      } else {
        if chunk < left { chunk := left; }
      }
      next := Word(loop.signed, start + chunk);
      return true, start, next;
    }
  }

  lemma TeamGrows(l: Loop, n: nat, ts: seq<Thread>, t: Thread)
    requires FetchTeam(l, n, ts) && t < n && t !in FetchRun(l, ts).refused
    ensures FetchTeam(l, n, ts + [t]) && FetchRun(l, ts + [t]) == FetchStep(l, FetchRun(l, ts), t)
  {
    var r := ts + [t];
    assert r[..|ts|] == ts;
    forall k | 0 <= k < |r| ensures r[k] < n && r[k] !in FetchRun(l, r[..k]).refused {
      if k < |ts| { assert r[..k] == ts[..k]; }
    }
  }
}
