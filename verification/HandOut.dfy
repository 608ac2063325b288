/** The account of handed-out iterations in positions: the distance from the start of the loop in the direction
    of the increment, so that up- and down-counting loops share it (iter.c, iter_ull.c). */
module HandOut {
  import opened Iterations

  type Thread = nat

  datatype Chunk = Chunk(lo: int, hi: int)

  /** The chunks are non-empty and lie end to end from 0 to `upto`. */
  ghost predicate EndToEnd(handed: seq<Chunk>, upto: int) {
    && (handed == [] ==> upto == 0)
    && (handed != [] ==> handed[0].lo == 0 && handed[|handed| - 1].hi == upto)
    && (forall i :: 0 <= i < |handed| ==> handed[i].lo < handed[i].hi)
    && (forall i :: 0 < i < |handed| ==> handed[i - 1].hi == handed[i].lo)
  }

  predicate Holds(c: Chunk, x: int) {
    c.lo <= x < c.hi
  }

  lemma {:induction false} Ordered(handed: seq<Chunk>, upto: int, i: nat, j: nat)
    requires EndToEnd(handed, upto) && i < j < |handed|
    ensures handed[i].hi <= handed[j].lo
    decreases j - i
  {
    if i + 1 < j {
      Ordered(handed, upto, i, j - 1);
      assert handed[j - 1].hi == handed[j].lo;
    } else {
      assert handed[j - 1].hi == handed[j].lo;
    }
  }

  lemma {:induction false} Found(handed: seq<Chunk>, upto: int, x: int, k: nat) returns (i: nat)
    requires EndToEnd(handed, upto) && k < |handed| && 0 <= x < handed[k].hi
    ensures i < |handed| && Holds(handed[i], x)
  {
    if handed[k].lo <= x {
      i := k;
    } else {
      assert handed[k - 1].hi == handed[k].lo;
      i := Found(handed, upto, x, k - 1);
    }
  }

  lemma Extend(handed: seq<Chunk>, lo: int, hi: int)
    requires EndToEnd(handed, lo) && lo < hi
    ensures EndToEnd(handed + [Chunk(lo, hi)], hi)
  {
  }

  function Min(a: int, b: int): int {
    if a < b then a else b
  }

  /** What the locked version hands out at `pos`: a chunk, or what is left. */
  function LockedSize(pos: int, c: int, end: int): int {
    Min(c, end - pos)
  }

  /** Every chunk is the one the locked version hands out where it begins. */
  ghost predicate Locked(handed: seq<Chunk>, c: int, end: int) {
    forall i :: 0 <= i < |handed| ==> handed[i].hi == handed[i].lo + LockedSize(handed[i].lo, c, end)
  }

  /** So the chunks begin at multiples of the chunk size. */
  lemma {:induction false} BeginsAt(handed: seq<Chunk>, upto: int, c: int, end: int, i: nat)
    requires EndToEnd(handed, upto) && Locked(handed, c, end) && upto <= end && i < |handed|
    ensures handed[i].lo == i * c && handed[i].lo == Times(i, c) && handed[i].lo < end
  {
    if i < |handed| - 1 { Ordered(handed, upto, i, |handed| - 1); }
    if i > 0 {
      BeginsAt(handed, upto, c, end, i - 1);
      assert handed[i - 1].hi == handed[i].lo;
      assert i * c == (i - 1) * c + c;
    }
  }

  lemma {:induction false} MultipleOf(i: nat, c: nat, d: nat)
    requires d > 0 && c % d == 0
    ensures i * c % d == 0
  {
    if i > 0 {
      MultipleOf(i - 1, c, d);
      assert i * c == (i - 1) * c + c;
      ModSum((i - 1) * c, c, d);
    }
  }

  lemma ModSum(a: nat, b: nat, d: nat)
    requires d > 0 && a % d == 0 && b % d == 0
    ensures (a + b) % d == 0
  {
    var x, y := a / d, b / d;
    assert a + b == (x + y) * d by { assert a == x * d && b == y * d; }
    ExactMultiple(x + y, d);
  }

  lemma ExactMultiple(k: nat, d: nat)
    requires d > 0
    ensures k * d % d == 0 && k * d / d == k
  {
    var q, r := k * d / d, k * d % d;
    assert k * d == q * d + r;
    assert (q + 1) * d == q * d + d && (k + 1) * d == k * d + d;
    Cancel(k, q + 1, d);
    Cancel(q, k + 1, d);
  }

  /** A chunk size of whole steps, or one that takes everything at once, makes every chunk begin at a step. */
  lemma Aligned(handed: seq<Chunk>, upto: int, c: int, end: int, d: nat, i: nat)
    requires EndToEnd(handed, upto) && Locked(handed, c, end) && upto <= end && i < |handed|
    requires d > 0 && c > 0 && (c % d == 0 || c >= end)
    ensures handed[i].lo >= 0 && handed[i].lo % d == 0
  {
    BeginsAt(handed, upto, c, end, i);
    MulMono(0, i, c);
    if c % d == 0 {
      MultipleOf(i, c, d);
    } else if i > 0 {
      MulMono(1, i, c);
    }
  }

  // ---------- Fetch and add ----------

  /** `pos` is the position of ws->next; `refused` are the threads that were told there is no work left. */
  datatype Share = Share(pos: int, refused: set<Thread>, handed: seq<Chunk>)

  /** One __sync_fetch_and_add by thread `t` of a loop of `end` positions handed out `c` at a time. */
  function Take(s: Share, t: Thread, c: int, end: int): Share {
    if s.pos >= end then s.(pos := s.pos + c, refused := s.refused + {t})
    else Share(s.pos + c, s.refused, s.handed + [Chunk(s.pos, Min(s.pos + c, end))])
  }

  /** A run: which thread takes next. */
  function TakeAll(ts: seq<Thread>, c: int, end: int): Share {
    if ts == [] then Share(0, {}, [])
    else Take(TakeAll(ts[..|ts| - 1], c, end), ts[|ts| - 1], c, end)
  }

  /** Each thread belongs to the team and takes again only while it has not been refused. */
  predicate TeamRun(ts: seq<Thread>, n: nat, c: int, end: int) {
    forall k :: 0 <= k < |ts| ==> ts[k] < n && ts[k] !in TakeAll(ts[..k], c, end).refused
  }

  lemma RunBefore(ts: seq<Thread>, n: nat, c: int, end: int)
    requires TeamRun(ts, n, c, end) && ts != []
    ensures TeamRun(ts[..|ts| - 1], n, c, end)
    ensures ts[|ts| - 1] < n && ts[|ts| - 1] !in TakeAll(ts[..|ts| - 1], c, end).refused
  {
    var before := ts[..|ts| - 1];
    forall k | 0 <= k < |before| ensures before[k] < n && before[k] !in TakeAll(before[..k], c, end).refused {
      assert before[..k] == ts[..k] && before[k] == ts[k];
    }
  }

  /** How far the counter may be past the end after `r` refusals. */
  ghost predicate Within(s: Share, c: int, end: int) {
    0 <= s.pos <= end + Times(|s.refused| + 1, c)
  }

  function Times(a: int, b: int): int {
    a * b
  }

  lemma TimesStep(a: int, b: int)
    ensures Times(a + 1, b) == Times(a, b) + b && Times(1, b) == b
    ensures a >= 0 && b >= 0 ==> Times(a, b) >= 0
  {
  }

  lemma TimesMono(a: int, b: int, c: int)
    requires a <= b && c >= 0
    ensures Times(a, c) <= Times(b, c)
  {
    MulMono(a, b, c);
  }

  lemma TakeWithin(s: Share, t: Thread, c: int, end: int)
    requires Within(s, c, end) && c >= 0 && end >= 0 && t !in s.refused
    ensures Within(Take(s, t, c, end), c, end)
  {
    var r := |s.refused|;
    TimesStep(r + 1, c);
    TimesStep(r, c);
    if s.pos >= end { assert |s.refused + {t}| == r + 1; }
  }

  lemma {:induction false} TakeAllWithin(ts: seq<Thread>, n: nat, c: int, end: int)
    requires TeamRun(ts, n, c, end) && c >= 0 && end >= 0
    ensures Within(TakeAll(ts, c, end), c, end)
    ensures forall t :: t in TakeAll(ts, c, end).refused ==> t < n
  {
    if ts == [] {
      TimesStep(0, c);
    } else {
      var before := ts[..|ts| - 1];
      RunBefore(ts, n, c, end);
      TakeAllWithin(before, n, c, end);
      TakeWithin(TakeAll(before, c, end), ts[|ts| - 1], c, end);
    }
  }

  lemma {:induction false} BoundedSet(s: set<nat>, n: nat)
    requires forall x :: x in s ==> x < n
    ensures |s| <= n
  {
    if n == 0 {
      assert s == {};
    } else {
      BoundedSet(s - {n - 1}, n - 1);
      assert n - 1 in s ==> s == (s - {n - 1}) + {n - 1};
      assert n - 1 !in s ==> s == s - {n - 1};
    }
  }

  /** Any interleaving of the threads of the team keeps ws->next within (nthreads + 1) chunks of the end. */
  lemma CounterBound(ts: seq<Thread>, n: nat, c: int, end: int)
    requires TeamRun(ts, n, c, end) && c >= 0 && end >= 0
    ensures 0 <= TakeAll(ts, c, end).pos <= end + Times(n + 1, c)
  {
    var s := TakeAll(ts, c, end);
    TakeAllWithin(ts, n, c, end);
    BoundedSet(s.refused, n);
    TimesMono(|s.refused| + 1, n + 1, c);
  }

  /** The chunks so far are those of the locked version, and a refusal means that all is handed out. */
  ghost predicate FetchOk(s: Share, c: int, end: int) {
    && 0 <= s.pos && EndToEnd(s.handed, Min(s.pos, end)) && Locked(s.handed, c, end)
    && (s.refused != {} ==> s.pos >= end)
  }

  lemma TakeKeeps(s: Share, t: Thread, c: int, end: int)
    requires FetchOk(s, c, end) && c >= 0 && end >= 0 && (c > 0 || end == 0)
    ensures FetchOk(Take(s, t, c, end), c, end)
  {
    if s.pos < end { Extend(s.handed, s.pos, Min(s.pos + c, end)); }
  }

  lemma {:induction false} TakeAllOk(ts: seq<Thread>, c: int, end: int)
    requires c >= 0 && end >= 0 && (c > 0 || end == 0)
    ensures FetchOk(TakeAll(ts, c, end), c, end)
  {
    if ts != [] {
      TakeAllOk(ts[..|ts| - 1], c, end);
      TakeKeeps(TakeAll(ts[..|ts| - 1], c, end), ts[|ts| - 1], c, end);
    }
  }

  lemma RunGrows(ts: seq<Thread>, t: Thread, n: nat, c: int, end: int)
    requires TeamRun(ts, n, c, end) && t < n && t !in TakeAll(ts, c, end).refused
    ensures TeamRun(ts + [t], n, c, end)
    ensures TakeAll(ts + [t], c, end) == Take(TakeAll(ts, c, end), t, c, end)
  {
    var r := ts + [t];
    assert r[..|ts|] == ts;
    forall k | 0 <= k < |r|
      ensures r[k] < n && r[k] !in TakeAll(r[..k], c, end).refused
    {
      if k < |ts| { assert r[..k] == ts[..k]; }
    }
  }

  // ---------- Compare and swap ----------

  /** Local variables of a thread in the retry loop: the value it last read and its clamped chunk. */
  datatype Local = Local(start: int, chunk: int)

  datatype CasState = CasState(pos: int, locals: map<Thread, Local>, refused: set<Thread>, handed: seq<Chunk>)

  datatype CasEvent = Enter(t: Thread) | Attempt(t: Thread)

  /** One pass of the retry loop of gomp_iter_dynamic_next; on failure the clamped chunk is kept. */
  function CasStep(s: CasState, ev: CasEvent, c: int, end: int): CasState {
    match ev
    case Enter(t) => if t in s.locals then s else s.(locals := s.locals[t := Local(s.pos, c)])
    case Attempt(t) =>
      if t !in s.locals then s
      else
        var l := s.locals[t];
        var chunk := Min(l.chunk, end - l.start);
        if l.start == end then s.(locals := s.locals - {t}, refused := s.refused + {t})
        else if s.pos == l.start then
          CasState(l.start + chunk, s.locals - {t}, s.refused, s.handed + [Chunk(l.start, l.start + chunk)])
        else s.(locals := s.locals[t := Local(s.pos, chunk)])
  }

  /** Clamping earlier than needed never changes what is handed out. */
  predicate LocalOk(l: Local, pos: int, c: int, end: int) {
    && 0 <= l.start <= pos <= end && l.chunk <= c
    && Min(l.chunk, end - l.start) == LockedSize(l.start, c, end)
  }

  ghost predicate CasOk(s: CasState, c: int, end: int) {
    && 0 <= s.pos <= end && EndToEnd(s.handed, s.pos) && Locked(s.handed, c, end)
    && (s.refused != {} ==> s.pos == end)
    && (forall t :: t in s.locals ==> LocalOk(s.locals[t], s.pos, c, end))
  }

  lemma CasKeeps(s: CasState, ev: CasEvent, c: int, end: int)
    requires CasOk(s, c, end) && (c > 0 || end == 0)
    ensures CasOk(CasStep(s, ev, c, end), c, end)
  {
    var s' := CasStep(s, ev, c, end);
    if ev.Attempt? && ev.t in s.locals {
      var l := s.locals[ev.t];
      assert LocalOk(l, s.pos, c, end);
      if l.start != end && s.pos == l.start {
        Extend(s.handed, l.start, l.start + Min(l.chunk, end - l.start));
      }
    }
    forall t | t in s'.locals ensures LocalOk(s'.locals[t], s'.pos, c, end) {
      LocalKeeps(s, ev, c, end, t);
    }
  }

  lemma LocalKeeps(s: CasState, ev: CasEvent, c: int, end: int, t: Thread)
    requires 0 <= s.pos <= end && (c > 0 || end == 0) && t in CasStep(s, ev, c, end).locals
    requires ev.Attempt? && ev.t in s.locals ==> LocalOk(s.locals[ev.t], s.pos, c, end)
    requires t in s.locals ==> LocalOk(s.locals[t], s.pos, c, end)
    ensures LocalOk(CasStep(s, ev, c, end).locals[t], CasStep(s, ev, c, end).pos, c, end)
  {
  }

  // ---------- Guided ----------

  /** `iters` whole steps are left and `q` of them are asked for: that many steps of size `d`, or all that is left. */
  function GuidedTake(q: int, iters: int, d: int, left: int): int {
    if q <= iters then q * d else left
  }

  lemma GuidedFits(q: int, d: nat, left: int)
    requires d > 0 && 0 < q && 0 < left
    ensures 0 < GuidedTake(q, left / d, d, left) <= left
    ensures GuidedTake(q, left / d, d, left) == left || GuidedTake(q, left / d, d, left) % d == 0
  {
    var iters := left / d;
    if q <= iters {
      MulMono(q, iters, d);
      MulMono(1, q, d);
      ExactMultiple(q, d);
    }
  }
}
