/** The static schedule (iter.c) and the owner that doacross wait computes (ordered.c). */
module StaticSchedule {
  import opened Iterations
  import opened Words
  import opened CountedLoops

  // ---------- Without a chunk size ----------

  /** The part of thread `i`: q iterations each, and one more for the first t threads. */
  function StartOf(q: nat, t: nat, i: nat): nat {
    if i < t then (q + 1) * i else q * i + t
  }

  function SizeOf(q: nat, t: nat, i: nat): nat {
    if i < t then q + 1 else q
  }

  function OwnerOf(q: nat, t: nat, k: nat): nat
    requires k >= t * (q + 1) ==> q > 0
  {
    if k < t * (q + 1) then k / (q + 1) else (k - t * (q + 1)) / q + t
  }

  function BlockStart(n: nat, nthreads: nat, i: nat): nat
    requires nthreads > 0
  {
    StartOf(n / nthreads, n % nthreads, i)
  }

  function BlockEnd(n: nat, nthreads: nat, i: nat): nat
    requires nthreads > 0
  {
    BlockStart(n, nthreads, i) + SizeOf(n / nthreads, n % nthreads, i)
  }

  /** GOMP_doacross_wait without a chunk size; no division by zero. */
  function BlockOwner(n: nat, nthreads: nat, k: nat): nat
    requires nthreads > 0 && k < n
  {
    QuotientPositive(n, nthreads, k);
    OwnerOf(n / nthreads, n % nthreads, k)
  }

  /** Past the boundary every thread has iterations. */
  lemma QuotientPositive(n: nat, nthreads: nat, k: nat)
    requires nthreads > 0 && k < n
    ensures k >= n % nthreads * (n / nthreads + 1) ==> n / nthreads > 0
  {
    var q, t := n / nthreads, n % nthreads;
    assert n == q * nthreads + t;
    assert t * (q + 1) == t * q + t;
  }

  lemma QuotientIs(a: nat, c: nat, q: nat)
    requires 0 < c && q * c <= a < (q + 1) * c
    ensures a / c == q
  {
    var k, r := a / c, a % c;
    assert a == k * c + r && (k + 1) * c == k * c + c && (q + 1) * c == q * c + c;
    Cancel(k, q + 1, c);
    Cancel(q, k + 1, c);
  }

  lemma QuotientBounds(a: nat, c: nat)
    requires 0 < c
    ensures a / c * c <= a < a / c * c + c
  {
  }

  /** Beyond the boundary parts begin at multiples of q from it. */
  lemma StartBeyond(q: nat, t: nat, i: nat)
    requires i >= t
    ensures StartOf(q, t, i) == t * (q + 1) + (i - t) * q
  {
    assert (i - t) * q == i * q - t * q && t * (q + 1) == t * q + t && q * i == i * q;
  }

  lemma OwnerHolds(q: nat, t: nat, k: nat)
    requires k >= t * (q + 1) ==> q > 0
    ensures var o := OwnerOf(q, t, k); StartOf(q, t, o) <= k < StartOf(q, t, o) + SizeOf(q, t, o)
  {
    var o, b := OwnerOf(q, t, k), t * (q + 1);
    if k < b {
      QuotientBounds(k, q + 1);
      Cancel(o, t, q + 1);
      assert (q + 1) * o == o * (q + 1);
    } else {
      QuotientBounds(k - b, q);
      StartBeyond(q, t, o);
    }
  }

  lemma OwnerInRange(q: nat, t: nat, k: nat, nthreads: nat)
    requires t < nthreads && k < nthreads * q + t && (k >= t * (q + 1) ==> q > 0)
    ensures OwnerOf(q, t, k) < nthreads
  {
    var o, b := OwnerOf(q, t, k), t * (q + 1);
    if k < b {
      QuotientBounds(k, q + 1);
      Cancel(o, t, q + 1);
    } else {
      QuotientBounds(k - b, q);
      assert b == t * q + t && (nthreads - t) * q == nthreads * q - t * q;
      Cancel(o - t, nthreads - t, q);
    }
  }

  /** Later threads get later iterations. */
  lemma BlocksApart(q: nat, t: nat, i: nat, j: nat)
    requires i < j
    ensures StartOf(q, t, i) + SizeOf(q, t, i) <= StartOf(q, t, j)
  {
    if j < t {
      MulMono(i + 1, j, q + 1);
      assert (i + 1) * (q + 1) == (q + 1) * i + q + 1 && j * (q + 1) == (q + 1) * j;
    } else if i >= t {
      MulMono(i + 1, j, q);
      assert (i + 1) * q == q * i + q && j * q == q * j;
    } else {
      StartBeyond(q, t, j);
      MulMono(i + 1, t, q + 1);
      assert (i + 1) * (q + 1) == (q + 1) * i + q + 1;
      MulMono(0, j - t, q);
    }
  }

  lemma OwnerUnique(q: nat, t: nat, k: nat, i: nat)
    requires k >= t * (q + 1) ==> q > 0
    ensures StartOf(q, t, i) <= k < StartOf(q, t, i) + SizeOf(q, t, i) <==> i == OwnerOf(q, t, k)
  {
    var o := OwnerOf(q, t, k);
    OwnerHolds(q, t, k);
    if i < o { BlocksApart(q, t, i, o); }
    if i > o { BlocksApart(q, t, o, i); }
  }

  /** Iteration `k` belongs to exactly one thread, the one that doacross wait computes. */
  lemma BlockExactlyOnce(n: nat, nthreads: nat, k: nat, i: nat)
    requires 0 < nthreads && k < n
    ensures BlockOwner(n, nthreads, k) < nthreads
    ensures BlockStart(n, nthreads, i) <= k < BlockEnd(n, nthreads, i) <==> i == BlockOwner(n, nthreads, k)
  {
    var q, t := n / nthreads, n % nthreads;
    DivMod(n, nthreads, q, t);
    QuotientPositive(n, nthreads, k);
    OwnerInRange(q, t, k, nthreads);
    OwnerUnique(q, t, k, i);
  }

  lemma DivMod(n: nat, d: nat, q: nat, r: nat)
    requires d > 0 && q == n / d && r == n % d
    ensures n == d * q + r && r < d
  {
  }

  // ---------- With a chunk size ----------

  /** The thread that doacross wait computes for iteration `k`. */
  function ChunkOwner(c: nat, nthreads: nat, k: nat): nat
    requires c > 0 && nthreads > 0
  {
    k / c % nthreads
  }

  /** The trip on which that thread gets it. */
  function OwnerTripOf(c: nat, nthreads: nat, k: nat): nat
    requires c > 0 && nthreads > 0
  {
    k / c / nthreads
  }

  /** Where the chunk of a trip begins. */
  function ChunkStart(c: nat, nthreads: nat, trip: nat, i: nat): nat {
    (trip * nthreads + i) * c
  }

  lemma ChunkExactlyOnce(n: nat, c: nat, nthreads: nat, k: nat, trip: nat, i: nat)
    requires c > 0 && nthreads > 0 && k < n && i < nthreads
    ensures ChunkStart(c, nthreads, trip, i) <= k < Min(ChunkStart(c, nthreads, trip, i) + c, n)
       <==> i == ChunkOwner(c, nthreads, k) && trip == OwnerTripOf(c, nthreads, k)
  {
    var m := trip * nthreads + i;
    assert (m + 1) * c == m * c + c;
    QuotientBounds(k, c);
    if m * c <= k < m * c + c {
      QuotientIs(k, c, m);
      assert (trip + 1) * nthreads == trip * nthreads + nthreads;
      QuotientIs(m, nthreads, trip);
    }
  }

  function Min(a: int, b: int): int {
    if a < b then a else b
  }

  // ---------- Threads that ask until they are refused ----------

  /** The answer to a request: refused, or the iterations from `lo` up to `hi`. */
  datatype Offer = Offer(ok: bool, lo: nat, hi: nat)

  /** What every trip of every thread is offered. */
  type Schedule = (nat, nat) -> Offer

  /** Which iterations the loop body runs for an offer. */
  type Body = (Offer, nat) -> bool

  /** Thread `i` asks on this trip: no earlier one was refused or ended at the last iteration. */
  ghost predicate Reaches(f: Schedule, n: nat, trip: nat, i: nat) {
    forall j: nat :: j < trip ==> f(j, i).ok && f(j, i).hi != n
  }

  ghost predicate Served(f: Schedule, n: nat, trip: nat, i: nat) {
    Reaches(f, n, trip, i) && f(trip, i).ok
  }

  ghost predicate Gets(f: Schedule, body: Body, n: nat, trip: nat, i: nat, k: nat) {
    Served(f, n, trip, i) && body(f(trip, i), k)
  }

  /** Thread `i` runs iteration `k` on this trip, and nobody else does, nor on any other trip. */
  ghost predicate OnlyGets(f: Schedule, body: Body, n: nat, nthreads: nat, trip: nat, i: nat, k: nat) {
    && i < nthreads && Gets(f, body, n, trip, i, k)
    && forall j: nat, u: nat :: u < nthreads && Gets(f, body, n, j, u, k) ==> u == i && j == trip
  }

  ghost predicate OnceAt(f: Schedule, body: Body, n: nat, nthreads: nat, k: nat) {
    exists trip: nat, i: nat :: OnlyGets(f, body, n, nthreads, trip, i, k)
  }

  /** Every iteration is run exactly once. */
  ghost predicate AllOnce(f: Schedule, body: Body, n: nat, nthreads: nat) {
    forall k: nat :: k < n ==> OnceAt(f, body, n, nthreads, k)
  }

  /** Every range that is handed out runs its first iteration. */
  ghost predicate NoneEmpty(f: Schedule, body: Body, n: nat, nthreads: nat) {
    forall trip: nat, i: nat :: i < nthreads && Served(f, n, trip, i) ==> body(f(trip, i), f(trip, i).lo)
  }

  /** The trips that a thread should make, and who runs which iteration on which of them. */
  datatype Plan = Plan(own: nat -> nat, who: nat -> nat, when: nat -> nat)

  ghost predicate OwnTripRight(f: Schedule, body: Body, p: Plan, n: nat, trip: nat, i: nat) {
    && Served(f, n, trip, i) && body(f(trip, i), f(trip, i).lo)
    && forall k: nat :: k < n ==> (body(f(trip, i), k) <==> i == p.who(k) && trip == p.when(k))
  }

  /** On the trips of the plan all is well. */
  ghost predicate OwnRight(f: Schedule, body: Body, p: Plan, n: nat, nthreads: nat) {
    && (forall trip: nat, i: nat :: i < nthreads && trip < p.own(i) ==> OwnTripRight(f, body, p, n, trip, i))
    && (forall k: nat :: k < n ==> p.who(k) < nthreads && p.when(k) < p.own(p.who(k)))
  }

  /** A thread asks once more than the plan says and is not refused. */
  ghost predicate TooMany(f: Schedule, p: Plan, n: nat, i: nat) {
    Served(f, n, p.own(i), i)
  }

  lemma ServedBefore(f: Schedule, n: nat, j: nat, trip: nat, i: nat)
    requires Served(f, n, trip, i) && j <= trip
    ensures Served(f, n, j, i)
  {
  }

  lemma ServedIsOwn(f: Schedule, p: Plan, n: nat, trip: nat, i: nat)
    requires Served(f, n, trip, i) && !TooMany(f, p, n, i)
    ensures trip < p.own(i)
  {
    if p.own(i) <= trip { ServedBefore(f, n, p.own(i), trip, i); }
  }

  /** If nobody is served too often, the plan is what happens. */
  lemma PlanHolds(f: Schedule, body: Body, p: Plan, n: nat, nthreads: nat)
    requires OwnRight(f, body, p, n, nthreads) && forall i: nat :: i < nthreads ==> !TooMany(f, p, n, i)
    ensures AllOnce(f, body, n, nthreads) && NoneEmpty(f, body, n, nthreads)
    ensures forall k: nat :: k < n ==> OnlyGets(f, body, n, nthreads, p.when(k), p.who(k), k)
  {
    forall trip: nat, i: nat | i < nthreads && Served(f, n, trip, i) ensures OwnTripRight(f, body, p, n, trip, i) {
      ServedIsOwn(f, p, n, trip, i);
    }
    forall k: nat | k < n ensures OnlyGets(f, body, n, nthreads, p.when(k), p.who(k), k) && OnceAt(f, body, n, nthreads, k) {
      assert OwnTripRight(f, body, p, n, p.when(k), p.who(k));
      assert OnlyGets(f, body, n, nthreads, p.when(k), p.who(k), k);
    }
  }

  /** Who is served too often and runs the first iteration it is given runs it a second time. */
  lemma TwiceRun(f: Schedule, body: Body, p: Plan, n: nat, nthreads: nat, i: nat)
    requires OwnRight(f, body, p, n, nthreads) && i < nthreads && TooMany(f, p, n, i)
    requires f(p.own(i), i).lo < n && body(f(p.own(i), i), f(p.own(i), i).lo)
    ensures !AllOnce(f, body, n, nthreads)
  {
    var k := f(p.own(i), i).lo;
    assert OwnTripRight(f, body, p, n, p.when(k), p.who(k));
    assert Gets(f, body, n, p.own(i), i, k) && Gets(f, body, n, p.when(k), p.who(k), k);
    forall t: nat, u: nat ensures !OnlyGets(f, body, n, nthreads, t, u, k) { }
    assert !OnceAt(f, body, n, nthreads, k);
  }

  /** Exactly when nobody is served too often, every iteration is run once and no range is empty. */
  lemma RightIff(f: Schedule, body: Body, p: Plan, n: nat, nthreads: nat)
    requires OwnRight(f, body, p, n, nthreads) && forall i: nat :: i < nthreads && TooMany(f, p, n, i) ==> f(p.own(i), i).lo < n
    ensures AllOnce(f, body, n, nthreads) && NoneEmpty(f, body, n, nthreads) <==> forall i: nat :: i < nthreads ==> !TooMany(f, p, n, i)
  {
    if forall i: nat :: i < nthreads ==> !TooMany(f, p, n, i) {
      PlanHolds(f, body, p, n, nthreads);
    } else {
      var i: nat :| i < nthreads && TooMany(f, p, n, i);
      if NoneEmpty(f, body, n, nthreads) { TwiceRun(f, body, p, n, nthreads, i); }
    }
  }

  // ---------- What the code computes ----------

  /** s0 and e0 of gomp_iter_static_next; with a chunk size both are taken modulo 2^64. */
  function OfferAt(n: nat, c: nat, nthreads: nat, trip: nat, i: nat): Offer
    requires nthreads > 0
  {
    if c == 0 then
      Offer(trip == 0 && BlockStart(n, nthreads, i) < BlockEnd(n, nthreads, i), BlockStart(n, nthreads, i), BlockEnd(n, nthreads, i))
    else
      var s0 := Wrap(ChunkStart(c, nthreads, trip, i));
      Offer(s0 < n, s0, if Wrap(s0 + c) > n then n else Wrap(s0 + c))
  }

  function Offers(n: nat, c: nat, nthreads: nat): Schedule
    requires nthreads > 0
  {
    (trip: nat, i: nat) => OfferAt(n, c, nthreads, trip, i)
  }

  /** Number of chunks, and of the trips of thread `i` that begin before n. */
  function Chunks(n: nat, c: nat): nat
    requires c > 0
  {
    (n + c - 1) / c
  }

  function OwnTrips(n: nat, c: nat, nthreads: nat, i: nat): nat
    requires c > 0 && nthreads > 0
  {
    if Chunks(n, c) <= i then 0 else (Chunks(n, c) - i + nthreads - 1) / nthreads
  }

  /** After its own trips the thread stops: it has been given the last iteration, or its next start is still
      at or past n when taken modulo 2^64. */
  predicate Stops(n: nat, c: nat, nthreads: nat, i: nat)
    requires c > 0 && nthreads > 0
  {
    var j := OwnTrips(n, c, nthreads, i);
    (j > 0 && ChunkStart(c, nthreads, j - 1, i) + c >= n) || Wrap(ChunkStart(c, nthreads, j, i)) >= n
  }

  /** When a chunk size fits the loop; a caller can compute it. */
  predicate Fits(n: nat, c: nat, nthreads: nat)
    requires c > 0 && nthreads > 0
  {
    Chunks(n, c) * c < ULL && forall i: nat :: i < nthreads ==> Stops(n, c, nthreads, i)
  }

  lemma OwnTripsExact(n: nat, c: nat, nthreads: nat, trip: nat, i: nat)
    requires c > 0 && nthreads > 0
    ensures ChunkStart(c, nthreads, trip, i) < n <==> trip < OwnTrips(n, c, nthreads, i)
    ensures ChunkStart(c, nthreads, trip, i) < n <==> trip * nthreads + i < Chunks(n, c)
  {
    var m := Chunks(n, c);
    CeilBounds(n, c, trip * nthreads + i);
    if m > i { CeilBounds(m - i, nthreads, trip); }
  }

  /** The chunks before the last one end before n, the last one reaches it. */
  lemma ChunkReach(n: nat, c: nat, x: nat)
    requires c > 0 && x < Chunks(n, c)
    ensures x * c < n
    ensures x + 1 < Chunks(n, c) ==> x * c + c < n
    ensures x + 1 == Chunks(n, c) ==> n <= x * c + c == Chunks(n, c) * c
  {
    assert (x + 1) * c == x * c + c;
    CeilBounds(n, c, x);
    CeilBounds(n, c, x + 1);
  }

  /** On its own trips a thread is offered its chunk, if the end of the last chunk does not wrap. */
  lemma OwnOffer(n: nat, c: nat, nthreads: nat, trip: nat, i: nat)
    requires 0 < c < ULL && nthreads > 0 && n < ULL && trip < OwnTrips(n, c, nthreads, i)
    ensures var s, o := ChunkStart(c, nthreads, trip, i), OfferAt(n, c, nthreads, trip, i);
      && s < n && o.ok && o.lo == s
      && (s + c < n ==> o.hi == s + c)
      && (s + c >= n ==> s + c == Chunks(n, c) * c && o.hi == if s + c < ULL then n else s + c - ULL)
  {
    var x := trip * nthreads + i;
    OwnTripsExact(n, c, nthreads, trip, i);
    ChunkReach(n, c, x);
    OfferWords(n, c, x * c);
  }

  lemma OfferWords(n: nat, c: nat, s: nat)
    requires s < n < ULL && c < ULL
    ensures Wrap(s) == s && Wrap(s + c) == if s + c < ULL then s + c else s + c - ULL
  {
    WrapHolds(s);
    if s + c < ULL { WrapHolds(s + c); } else { WrapAround(s + c); }
  }

  lemma Later(c: nat, nthreads: nat, j: nat, trip: nat, i: nat)
    requires j < trip && nthreads > 0
    ensures ChunkStart(c, nthreads, j, i) + c <= ChunkStart(c, nthreads, trip, i)
  {
    MulMono(j + 1, trip, nthreads);
    assert (j + 1) * nthreads == j * nthreads + nthreads;
    MulMono(j * nthreads + i + 1, trip * nthreads + i, c);
    assert (j * nthreads + i + 1) * c == (j * nthreads + i) * c + c;
  }

  /** A thread reaches all its own trips. */
  lemma OwnServed(n: nat, c: nat, nthreads: nat, trip: nat, i: nat)
    requires 0 < c < ULL && nthreads > 0 && n < ULL && trip < OwnTrips(n, c, nthreads, i)
    ensures Served(Offers(n, c, nthreads), n, trip, i)
  {
    var f := Offers(n, c, nthreads);
    OwnOffer(n, c, nthreads, trip, i);
    forall j: nat | j < trip ensures f(j, i).ok && f(j, i).hi != n {
      OwnOffer(n, c, nthreads, j, i);
      Later(c, nthreads, j, trip, i);
    }
  }

  /** A thread is served beyond its own trips exactly if it does not stop. */
  lemma TooManyIff(n: nat, c: nat, nthreads: nat, i: nat)
    requires 0 < c < ULL && nthreads > 0 && n < ULL && Chunks(n, c) * c < ULL
    ensures Served(Offers(n, c, nthreads), n, OwnTrips(n, c, nthreads, i), i) <==> !Stops(n, c, nthreads, i)
  {
    var f, j := Offers(n, c, nthreads), OwnTrips(n, c, nthreads, i);
    if j > 0 {
      OwnServed(n, c, nthreads, j - 1, i);
      OwnOffer(n, c, nthreads, j - 1, i);
      assert f(j - 1, i) == OfferAt(n, c, nthreads, j - 1, i);
    }
  }

  // ---------- In loop values ----------

  /** The loop body of thread `i` for an offer, in the words of the loop: the ends are computed as words too. */
  function BodyOf(signed: bool, next: int, step: int): Body {
    (o: Offer, k: nat) => Runs(Word(signed, Value(next, step, o.lo)), Word(signed, Value(next, step, o.hi)), step, Value(next, step, k))
  }

  /** What the body runs for an offer, if its end is a word. */
  lemma BodyRuns(signed: bool, next: int, end: int, step: int, o: Offer, k: nat)
    requires Countable(signed, next, end, step) && o.lo < TripCount(next, end, step) && o.hi <= TripCount(next, end, step)
    requires InWord(signed, Value(next, step, o.hi))
    ensures BodyOf(signed, next, step)(o, k) <==> o.lo <= k < o.hi
  {
    ValueInWord(signed, next, end, step, o.lo);
    WordHolds(signed, Value(next, step, o.lo));
    WordHolds(signed, Value(next, step, o.hi));
    PartRuns(next, step, o.lo, o.hi, k);
  }

  /** If its end is the loop's and no word, the body runs nothing. */
  lemma BodyLost(signed: bool, next: int, end: int, step: int, o: Offer)
    requires Countable(signed, next, end, step) && o.lo < o.hi == TripCount(next, end, step)
    requires !InWord(signed, Value(next, step, o.hi))
    ensures !BodyOf(signed, next, step)(o, o.lo)
  {
    ValueInWord(signed, next, end, step, o.lo);
    WordHolds(signed, Value(next, step, o.lo));
    ValueAfter(signed, next, end, step, o.lo);
  }

  // ---------- When the static schedule is right ----------

  function PlanOf(n: nat, c: nat, nthreads: nat): Plan
    requires nthreads > 0
  {
    if c == 0 then
      Plan((i: nat) => if BlockStart(n, nthreads, i) < BlockEnd(n, nthreads, i) then 1 else 0,
           (k: nat) => if k < n then BlockOwner(n, nthreads, k) else 0, (k: nat) => 0)
    else
      Plan((i: nat) => OwnTrips(n, c, nthreads, i), (k: nat) => ChunkOwner(c, nthreads, k), (k: nat) => OwnerTripOf(c, nthreads, k))
  }

  /** The chunk of iteration `k` is one of its owner's own trips. */
  lemma OwnerTrip(n: nat, c: nat, nthreads: nat, k: nat, trip: nat, i: nat)
    requires c > 0 && nthreads > 0 && k < n && i == ChunkOwner(c, nthreads, k) && trip == OwnerTripOf(c, nthreads, k)
    ensures i < nthreads && trip < OwnTrips(n, c, nthreads, i)
    ensures ChunkStart(c, nthreads, trip, i) <= k < ChunkStart(c, nthreads, trip, i) + c
  {
    ChunkExactlyOnce(n, c, nthreads, k, trip, i);
    OwnTripsExact(n, c, nthreads, trip, i);
  }

  lemma ChunkTripRight(signed: bool, next: int, end: int, step: int, c: nat, nthreads: nat, trip: nat, i: nat)
    requires Countable(signed, next, end, step) && 0 < c < ULL && nthreads > 0 && i < nthreads
    requires var n := TripCount(next, end, step);
      n < ULL && Chunks(n, c) * c < ULL && InWord(signed, Value(next, step, n)) && trip < OwnTrips(n, c, nthreads, i)
    ensures var n := TripCount(next, end, step);
      OwnTripRight(Offers(n, c, nthreads), BodyOf(signed, next, step), PlanOf(n, c, nthreads), n, trip, i)
  {
    var n := TripCount(next, end, step);
    var f, body, p, o := Offers(n, c, nthreads), BodyOf(signed, next, step), PlanOf(n, c, nthreads), OfferAt(n, c, nthreads, trip, i);
    OwnServed(n, c, nthreads, trip, i);
    OwnOffer(n, c, nthreads, trip, i);
    if o.hi < n { ValueInWord(signed, next, end, step, o.hi); }
    BodyRuns(signed, next, end, step, o, o.lo);
    forall k: nat | k < n ensures body(f(trip, i), k) <==> i == p.who(k) && trip == p.when(k) {
      BodyRuns(signed, next, end, step, o, k);
      ChunkExactlyOnce(n, c, nthreads, k, trip, i);
    }
  }

  lemma BlockEndBound(n: nat, nthreads: nat, i: nat)
    requires nthreads > 0 && i < nthreads
    ensures BlockEnd(n, nthreads, i) <= n
  {
    var q, t := n / nthreads, n % nthreads;
    DivMod(n, nthreads, q, t);
    if i + 1 < nthreads { BlocksApart(q, t, i, nthreads); } else { assert q * i + q == nthreads * q; }
    assert StartOf(q, t, nthreads) == q * nthreads + t == n;
  }

  lemma BlockTripRight(signed: bool, next: int, end: int, step: int, nthreads: nat, i: nat)
    requires Countable(signed, next, end, step) && nthreads > 0 && i < nthreads
    requires var n := TripCount(next, end, step);
      n >= 0 && InWord(signed, Value(next, step, n)) && BlockStart(n, nthreads, i) < BlockEnd(n, nthreads, i)
    ensures var n := TripCount(next, end, step);
      OwnTripRight(Offers(n, 0, nthreads), BodyOf(signed, next, step), PlanOf(n, 0, nthreads), n, 0, i)
  {
    var n := TripCount(next, end, step);
    var f, body, p, o := Offers(n, 0, nthreads), BodyOf(signed, next, step), PlanOf(n, 0, nthreads), OfferAt(n, 0, nthreads, 0, i);
    BlockEndBound(n, nthreads, i);
    if o.hi < n { ValueInWord(signed, next, end, step, o.hi); }
    BodyRuns(signed, next, end, step, o, o.lo);
    forall k: nat | k < n ensures body(f(0, i), k) <==> i == p.who(k) && 0 == p.when(k) {
      BodyRuns(signed, next, end, step, o, k);
      BlockExactlyOnce(n, nthreads, k, i);
    }
  }

  lemma PlanRight(signed: bool, next: int, end: int, step: int, c: nat, nthreads: nat)
    requires Countable(signed, next, end, step) && c < ULL && nthreads > 0
    requires var n := TripCount(next, end, step);
      0 <= n < ULL && (c > 0 ==> Chunks(n, c) * c < ULL) && InWord(signed, Value(next, step, n))
    ensures var n := TripCount(next, end, step);
      OwnRight(Offers(n, c, nthreads), BodyOf(signed, next, step), PlanOf(n, c, nthreads), n, nthreads)
  {
    var n := TripCount(next, end, step);
    var f, body, p := Offers(n, c, nthreads), BodyOf(signed, next, step), PlanOf(n, c, nthreads);
    forall trip: nat, i: nat | i < nthreads && trip < p.own(i) ensures OwnTripRight(f, body, p, n, trip, i) {
      if c == 0 { BlockTripRight(signed, next, end, step, nthreads, i); } else { ChunkTripRight(signed, next, end, step, c, nthreads, trip, i); }
    }
    forall k: nat | k < n ensures p.who(k) < nthreads && p.when(k) < p.own(p.who(k)) {
      if c == 0 { BlockExactlyOnce(n, nthreads, k, BlockOwner(n, nthreads, k)); } else { OwnerTrip(n, c, nthreads, k, OwnerTripOf(c, nthreads, k), ChunkOwner(c, nthreads, k)); }
    }
  }

  /** Every iteration of the loop is run exactly once, and every range that is handed out runs its first. */
  ghost predicate StaticRight(signed: bool, next: int, end: int, step: int, c: nat, nthreads: nat)
    requires nthreads > 0 && step != 0 && TripCount(next, end, step) >= 0
  {
    var n := TripCount(next, end, step);
    AllOnce(Offers(n, c, nthreads), BodyOf(signed, next, step), n, nthreads)
    && NoneEmpty(Offers(n, c, nthreads), BodyOf(signed, next, step), n, nthreads)
  }

  lemma LastChunk(n: nat, c: nat, nthreads: nat) returns (trip: nat, i: nat)
    requires 0 < c < ULL && nthreads > 0 && 0 < n < ULL
    ensures i < nthreads && trip < OwnTrips(n, c, nthreads, i) && n <= ChunkStart(c, nthreads, trip, i) + c
  {
    i, trip := ChunkOwner(c, nthreads, n - 1), OwnerTripOf(c, nthreads, n - 1);
    OwnerTrip(n, c, nthreads, n - 1, trip, i);
  }

  /** The last range ends at n, or before its start if its end wraps. */
  lemma LastOffer(n: nat, c: nat, nthreads: nat) returns (trip: nat, i: nat)
    requires c < ULL && nthreads > 0 && 0 < n < ULL
    ensures i < nthreads && Served(Offers(n, c, nthreads), n, trip, i)
    ensures var o := OfferAt(n, c, nthreads, trip, i);
      o.lo < n && if c > 0 && Chunks(n, c) * c >= ULL then o.hi < o.lo else o.hi == n
  {
    if c == 0 {
      i, trip := BlockOwner(n, nthreads, n - 1), 0;
      BlockExactlyOnce(n, nthreads, n - 1, i);
      BlockEndBound(n, nthreads, i);
    } else {
      trip, i := LastChunk(n, c, nthreads);
      OwnServed(n, c, nthreads, trip, i);
      OwnOffer(n, c, nthreads, trip, i);
    }
  }

  /** If the value after the last iteration is no word, or the end of the last chunk wraps, the last range runs
      nothing. */
  lemma LastIsLost(signed: bool, next: int, end: int, step: int, c: nat, nthreads: nat)
    requires Countable(signed, next, end, step) && c < ULL && nthreads > 0 && TripCount(next, end, step) > 0
    requires !InWord(signed, Value(next, step, TripCount(next, end, step)))
      || (c > 0 && Chunks(TripCount(next, end, step), c) * c >= ULL)
    ensures !NoneEmpty(Offers(TripCount(next, end, step), c, nthreads), BodyOf(signed, next, step), TripCount(next, end, step), nthreads)
  {
    CountOf(signed, next, end, step);
    var n := TripCount(next, end, step);
    var trip, i := LastOffer(n, c, nthreads);
    LastRange(signed, next, end, step, OfferAt(n, c, nthreads, trip, i));
    assert Offers(n, c, nthreads)(trip, i) == OfferAt(n, c, nthreads, trip, i);
  }

  lemma LastRange(signed: bool, next: int, end: int, step: int, o: Offer)
    requires Countable(signed, next, end, step) && o.lo < TripCount(next, end, step)
    requires o.hi < o.lo || (o.hi == TripCount(next, end, step) && !InWord(signed, Value(next, step, o.hi)))
    ensures !BodyOf(signed, next, step)(o, o.lo)
  {
    if o.hi < o.lo {
      ValueInWord(signed, next, end, step, o.hi);
      BodyRuns(signed, next, end, step, o, o.lo);
    } else {
      BodyLost(signed, next, end, step, o);
    }
  }

  /** Exactly when the static schedule is right, with 64-bit words, up or down. */
  lemma StaticExact(signed: bool, next: int, end: int, step: int, c: nat, nthreads: nat)
    requires Countable(signed, next, end, step) && c < ULL && nthreads > 1
    ensures var n := TripCount(next, end, step);
      n >= 0 && (StaticRight(signed, next, end, step, c, nthreads)
                 <==> InWord(signed, Value(next, step, n)) && (c == 0 || Fits(n, c, nthreads)))
  {
    CountOf(signed, next, end, step);
    var n := TripCount(next, end, step);
    if InWord(signed, Value(next, step, n)) && (c > 0 ==> Chunks(n, c) * c < ULL) {
      PlanRight(signed, next, end, step, c, nthreads);
      BeyondIff(n, c, nthreads);
      RightIff(Offers(n, c, nthreads), BodyOf(signed, next, step), PlanOf(n, c, nthreads), n, nthreads);
    } else {
      if n == 0 { assert Value(next, step, 0) == next; }
      if n == 0 && c > 0 { CountBounds(0, c); }
      LastIsLost(signed, next, end, step, c, nthreads);
    }
  }

  /** In terms of the plan: nobody is served too often exactly if everybody stops. */
  lemma BeyondIff(n: nat, c: nat, nthreads: nat)
    requires c < ULL && n < ULL && nthreads > 0 && (c > 0 ==> Chunks(n, c) * c < ULL)
    ensures var f, p := Offers(n, c, nthreads), PlanOf(n, c, nthreads);
      && (forall i: nat :: i < nthreads && TooMany(f, p, n, i) ==> f(p.own(i), i).lo < n)
      && ((forall i: nat :: i < nthreads ==> !TooMany(f, p, n, i)) <==> c == 0 || Fits(n, c, nthreads))
  {
    var f, p := Offers(n, c, nthreads), PlanOf(n, c, nthreads);
    forall i: nat | i < nthreads ensures TooMany(f, p, n, i) <==> c > 0 && !Stops(n, c, nthreads, i) {
      if c > 0 { TooManyIff(n, c, nthreads, i); }
    }
  }

  /** Chunks of long size are never empty, so that each iteration is run exactly once if and only if the chunk
      size fits. */
  lemma OnceExact(signed: bool, next: int, end: int, step: int, c: nat, nthreads: nat)
    requires Countable(signed, next, end, step) && 0 < c < ULL && nthreads > 1
    requires var n := TripCount(next, end, step); n + c <= ULL && InWord(signed, Value(next, step, n))
    ensures var n := TripCount(next, end, step);
      n >= 0 && (AllOnce(Offers(n, c, nthreads), BodyOf(signed, next, step), n, nthreads) <==> Fits(n, c, nthreads))
  {
    CountOf(signed, next, end, step);
    var n := TripCount(next, end, step);
    var f, body, p := Offers(n, c, nthreads), BodyOf(signed, next, step), PlanOf(n, c, nthreads);
    FewerThan(n, c);
    PlanRight(signed, next, end, step, c, nthreads);
    BeyondIff(n, c, nthreads);
    if Fits(n, c, nthreads) {
      PlanHolds(f, body, p, n, nthreads);
    } else {
      var i: nat :| i < nthreads && TooMany(f, p, n, i);
      var o := OfferAt(n, c, nthreads, OwnTrips(n, c, nthreads, i), i);
      OfferWords(n, c, o.lo);
      if o.hi < n { ValueInWord(signed, next, end, step, o.hi); }
      BodyRuns(signed, next, end, step, o, o.lo);
      TwiceRun(f, body, p, n, nthreads, i);
    }
  }

  lemma FewerThan(n: nat, c: nat)
    requires c > 0 && n + c <= ULL
    ensures Chunks(n, c) * c < ULL && n < ULL && c <= ULL
  {
    CountBounds(n, c);
  }

  lemma NextTrip(c: nat, nthreads: nat, j: nat, i: nat)
    requires j > 0
    ensures ChunkStart(c, nthreads, j, i) == ChunkStart(c, nthreads, j - 1, i) + nthreads * c
  {
    assert j * nthreads == (j - 1) * nthreads + nthreads;
    assert ((j - 1) * nthreads + i + nthreads) * c == ((j - 1) * nthreads + i) * c + nthreads * c;
  }

  lemma GuardStops(n: nat, c: nat, nthreads: nat, i: nat)
    requires c > 0 && i < nthreads && n + nthreads * c <= ULL
    ensures Stops(n, c, nthreads, i)
  {
    var j := OwnTrips(n, c, nthreads, i);
    OwnTripsExact(n, c, nthreads, j, i);
    if j > 0 {
      OwnTripsExact(n, c, nthreads, j - 1, i);
      NextTrip(c, nthreads, j, i);
    } else {
      MulMono(i + 1, nthreads, c);
      assert (i + 1) * c == i * c + c;
      assert ChunkStart(c, nthreads, 0, i) == i * c;
    }
    WrapHolds(ChunkStart(c, nthreads, j, i));
  }

  /** The test a caller can make. */
  lemma Guard(n: nat, c: nat, nthreads: nat)
    requires c > 0 && nthreads > 0 && n + nthreads * c <= ULL
    ensures Fits(n, c, nthreads)
  {
    MulMono(1, nthreads, c);
    FewerThan(n, c);
    forall i: nat | i < nthreads ensures Stops(n, c, nthreads, i) {
      GuardStops(n, c, nthreads, i);
    }
  }

  /** Two chunk sizes that do not fit: thread 4, and thread 3, are given what thread 0 has. */
  lemma ChunkWraps()
    ensures !StaticRight(true, 0, 10, 1, 0x4000_0000_0000_0000, 8)
    ensures !StaticRight(true, 0, 10, 1, 0x5555_5555_5555_5556, 8)
    ensures Gets(Offers(10, 0x4000_0000_0000_0000, 8), BodyOf(true, 0, 1), 10, 0, 0, 0)
    ensures Gets(Offers(10, 0x4000_0000_0000_0000, 8), BodyOf(true, 0, 1), 10, 0, 4, 0)
  {
    assert TripCount(0, 10, 1) == 10;
    var c, e := 0x4000_0000_0000_0000, 0x5555_5555_5555_5556;
    assert !Stops(10, c, 8, 4) && !Stops(10, e, 8, 3);
    StaticExact(true, 0, 10, 1, c, 8);
    StaticExact(true, 0, 10, 1, e, 8);
    assert OfferAt(10, c, 8, 0, 0) == Offer(true, 0, 10) == OfferAt(10, c, 8, 0, 4);
    assert Offers(10, c, 8)(0, 0) == OfferAt(10, c, 8, 0, 0) && Offers(10, c, 8)(0, 4) == OfferAt(10, c, 8, 0, 4);
    BodyRuns(true, 0, 10, 1, Offer(true, 0, 10), 0);
  }

  /** A loop whose end after the last step is no long: its one iteration is lost. */
  lemma EndWraps()
    ensures !StaticRight(true, LONG_MAX - 1, LONG_MAX, 2, 0, 2)
  {
    assert TripCount(LONG_MAX - 1, LONG_MAX, 2) == 1;
    StaticExact(true, LONG_MAX - 1, LONG_MAX, 2, 0, 2);
  }

  /** The plan says who doacross wait looks at. */
  lemma PlanOwner(n: nat, c: nat, nthreads: nat, k: nat)
    requires nthreads > 0 && k < n
    ensures PlanOf(n, c, nthreads).who(k) == if c == 0 then BlockOwner(n, nthreads, k) else ChunkOwner(c, nthreads, k)
  {
  }

  /** When the schedule is right, that thread runs the iteration. */
  lemma OwnerRuns(signed: bool, next: int, end: int, step: int, c: nat, nthreads: nat, k: nat)
    requires Countable(signed, next, end, step) && c < ULL && nthreads > 1 && TripCount(next, end, step) > k
    requires StaticRight(signed, next, end, step, c, nthreads)
    ensures var n := TripCount(next, end, step);
      var p := PlanOf(n, c, nthreads);
      OnlyGets(Offers(n, c, nthreads), BodyOf(signed, next, step), n, nthreads, p.when(k), p.who(k), k)
  {
    CountOf(signed, next, end, step);
    StaticExact(signed, next, end, step, c, nthreads);
    PlanRight(signed, next, end, step, c, nthreads);
    BeyondIff(TripCount(next, end, step), c, nthreads);
    var n := TripCount(next, end, step);
    PlanHolds(Offers(n, c, nthreads), BodyOf(signed, next, step), PlanOf(n, c, nthreads), n, nthreads);
  }

  // ---------- The requests of one thread ----------

  /** What gomp_iter_static_next returns: 0 with a range, 1 for no more, -1 after the last iteration. */
  datatype Answer = Answer(code: int, trip: int, lo: int, hi: int)

  /** gomp_iter_static_next and gomp_iter_ull_static_next for thread `i`; `c` is 0 when no chunk size is given,
      and the trip -1 says that the last iteration has been handed to this thread. */
  method StaticNext(signed: bool, trip: int, c: nat, nthreads: nat, i: nat, next: int, end: int, step: int) returns (r: Answer)
    requires Countable(signed, next, end, step) && c < ULL && nthreads > 0 && i < nthreads && -1 <= trip
    ensures trip == -1 ==> r.code == -1
    ensures nthreads == 1 && trip >= 0 ==> r == Answer(if next == end then 1 else 0, -1, next, end)
    ensures nthreads > 1 && trip >= 0 ==>
      var n := TripCount(next, end, step);
      && n >= 0 && (r.code == 0 <==> OfferAt(n, c, nthreads, trip, i).ok)
      && (r.code == 0 ==>
            var o := OfferAt(n, c, nthreads, trip, i);
            && r.lo == Word(signed, Value(next, step, o.lo)) && r.hi == Word(signed, Value(next, step, o.hi))
            && r.trip == if o.hi == n then -1 else trip + 1)
  {
    if trip == -1 {
      return Answer(-1, trip, 0, 0);
    }
    if nthreads == 1 {
      return Answer(if next == end then 1 else 0, -1, next, end);
    }
    CountOf(signed, next, end, step);
    WordCountExact(signed, next, end, step);
    var n := WordCount(signed, next, end, step);
    var s0, e0;
    if c == 0 {
      if trip > 0 {
        return Answer(1, trip, 0, 0);
      }
      var q, t := n / nthreads, n % nthreads;
      if i < t {
        t := 0;
        q := q + 1;
      }
      s0 := q * i + t;
      e0 := s0 + q;
      if s0 >= e0 {
        return Answer(1, 1, 0, 0);
      }
    } else {
      s0 := Wrap((trip * nthreads + i) * c);
      e0 := Wrap(s0 + c);
      if s0 >= n {
        return Answer(1, trip, 0, 0);
      }
      if e0 > n {
        e0 := n;
      }
    }
    return Answer(0, if e0 == n then -1 else trip + 1, Word(signed, next + s0 * step), Word(signed, next + e0 * step));
  }

  /** A thread asks until it is refused, at most `limit` times: it gets the ranges of the trips it is served on. */
  method ThreadRanges(signed: bool, c: nat, nthreads: nat, i: nat, next: int, end: int, step: int, limit: nat) returns (got: seq<Answer>)
    requires Countable(signed, next, end, step) && c < ULL && nthreads > 1 && i < nthreads
    ensures var n := TripCount(next, end, step);
      && n >= 0 && |got| <= limit && (forall j: nat :: j < |got| ==> Served(Offers(n, c, nthreads), n, j, i))
      && (|got| < limit ==> !Served(Offers(n, c, nthreads), n, |got|, i))
    ensures forall j: nat :: j < |got| ==>
      var o := OfferAt(TripCount(next, end, step), c, nthreads, j, i);
      got[j].lo == Word(signed, Value(next, step, o.lo)) && got[j].hi == Word(signed, Value(next, step, o.hi))
  {
    CountOf(signed, next, end, step);
    got := [];
    var trip := 0;
    ghost var n := TripCount(next, end, step);
    ghost var f := Offers(n, c, nthreads);
    while |got| < limit
      invariant |got| <= limit && (trip == -1 || trip == |got|)
      invariant forall j: nat :: j < |got| ==> Served(f, n, j, i)
      invariant trip == |got| <==> Reaches(f, n, |got|, i)
      invariant forall j: nat :: j < |got| ==>
        var o := OfferAt(n, c, nthreads, j, i);
        got[j].lo == Word(signed, Value(next, step, o.lo)) && got[j].hi == Word(signed, Value(next, step, o.hi))
    {
      var r := StaticNext(signed, trip, c, nthreads, i, next, end, step);
      assert trip >= 0 ==> f(trip, i) == OfferAt(n, c, nthreads, trip, i);
      if r.code != 0 {
        return;
      }
      got := got + [r];
      trip := r.trip;
    }
  }

  /** A team of one runs all iterations in its one range. */
  lemma SingleRunsAll(next: int, end: int, incr: int, k: nat)
    requires incr != 0 && Before(next, end, incr)
    ensures Runs(next, end, incr, Value(next, incr, k)) <==> k < TripCount(next, end, incr)
  {
    TripCountExact(next, end, incr, k);
    ValueOrder(next, incr, k, 0);
    assert Value(next, incr, 0) == next;
  }
}
