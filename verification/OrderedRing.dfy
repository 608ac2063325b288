/** Ordered regions in dynamic and guided loops (ordered.c, loop.c): a ring of the threads that hold a chunk,
    and one token that travels along it. */
module OrderedRing {
  import opened Counting
  import Links

  /** The ordered_* fields of a work share and the team's release semaphores; no owner is -1. */
  datatype Ring = Ring(ids: seq<nat>, cur: nat, used: nat, owner: int, sem: seq<nat>)

  predicate Shape(r: Ring) {
    |r.ids| == |r.sem| >= 2 && r.cur < |r.ids| && r.used <= |r.ids|
  }

  function Slot(n: nat, i: nat): nat {
    if i >= n then i - n else i
  }

  function Post(sem: seq<nat>, t: nat): seq<nat> {
    if t < |sem| then sem[t := sem[t] + 1] else sem
  }

  // ---------- Ring operations ----------

  /** gomp_ordered_first: `t` gets its first chunk. */
  function First(r: Ring, t: nat): Ring
    requires Shape(r) && r.used < |r.ids|
  {
    r.(ids := r.ids[Slot(|r.ids|, r.cur + r.used) := t], used := r.used + 1, sem := if r.used == 0 then Post(r.sem, t) else r.sem)
  }

  /** gomp_ordered_last: the owner gets no further chunk. */
  function Last(r: Ring): Ring
    requires Shape(r) && r.used > 0
  {
    if r.used == 1 then r.(owner := -1, used := 0)
    else
      var next := Slot(|r.ids|, r.cur + 1);
      r.(owner := -1, used := r.used - 1, cur := next, sem := Post(r.sem, r.ids[next]))
  }

  /** gomp_ordered_next: the owner `t` gets another chunk. */
  function Again(r: Ring, t: nat): Ring
    requires Shape(r) && r.used > 0
  {
    if r.used == 1 then r.(owner := -1, sem := Post(r.sem, t))
    else
      var ids := if r.used < |r.ids| then r.ids[Slot(|r.ids|, r.cur + r.used) := t] else r.ids;
      var next := Slot(|r.ids|, r.cur + 1);
      r.(owner := -1, ids := ids, cur := next, sem := Post(r.sem, ids[next]))
  }

  /** The threads in the ring, in order. */
  function Queue(r: Ring): (q: seq<nat>)
    requires Shape(r)
    ensures |q| == r.used && forall i :: 0 <= i < |q| ==> q[i] == r.ids[Slot(|r.ids|, r.cur + i)]
  {
    seq(r.used, i requires 0 <= i < r.used => r.ids[Slot(|r.ids|, r.cur + i)])
  }

  lemma FirstQueue(r: Ring, t: nat)
    requires Shape(r) && r.used < |r.ids|
    ensures Shape(First(r, t)) && Queue(First(r, t)) == Queue(r) + [t]
  {
  }

  lemma LastQueue(r: Ring)
    requires Shape(r) && r.used > 0
    ensures Shape(Last(r)) && Queue(Last(r)) == Queue(r)[1..]
  {
  }

  lemma AgainQueue(r: Ring, t: nat)
    requires Shape(r) && r.used > 0 && Queue(r)[0] == t
    ensures Shape(Again(r, t)) && Queue(Again(r, t)) == Queue(r)[1..] + [t]
  {
    var q, q' := Queue(r), Queue(Again(r, t));
    forall i | 0 <= i < |q| ensures q'[i] == (q[1..] + [t])[i] { }
  }

  // ---------- Threads ----------

  datatype Pc =
    | Out       // has not asked for a chunk yet
    | Working   // works on a chunk
    | Blocked   // in gomp_ordered_sync, found another owner
    | Taken     // returned from the semaphore
    | Held      // returned from gomp_ordered_sync
    | Gone      // was refused a chunk

  /** Chunks are numbered in the order of their allocation; `log` holds the chunks of the ordered regions
      executed so far. */
  datatype State = State(ring: Ring, pc: seq<Pc>, chunk: seq<nat>, handed: nat, finished: nat, log: seq<nat>)

  datatype Event =
    | Begin(t: nat, more: bool)
    | Check(t: nat)
    | Wait(t: nat)
    | Own(t: nat)
    | Execute(t: nat)
    | Finish(t: nat, more: bool)

  predicate Sized(s: State) {
    Shape(s.ring) && |s.pc| == |s.chunk| == |s.ring.ids|
  }

  predicate Enabled(s: State, e: Event) {
    && Sized(s) && e.t < |s.pc|
    && match e
       case Begin(t, _) => s.pc[t] == Out
       case Check(t) => s.pc[t] == Working || s.pc[t] == Held
       case Wait(t) => s.pc[t] == Blocked && s.ring.sem[t] > 0
       case Own(t) => s.pc[t] == Taken
       case Execute(t) => s.pc[t] == Held
       case Finish(t, _) => s.pc[t] == Held
  }

  function Step(s: State, e: Event): State
    requires Enabled(s, e)
  {
    match e
    case Begin(t, more) =>
      if more && s.ring.used < |s.ring.ids| then
        s.(ring := First(s.ring, t), pc := s.pc[t := Working], chunk := s.chunk[t := s.handed], handed := s.handed + 1)
      else s.(pc := s.pc[t := Gone])
    case Check(t) => s.(pc := s.pc[t := if s.ring.owner == t then Held else Blocked])
    case Wait(t) => s.(ring := s.ring.(sem := s.ring.sem[t := s.ring.sem[t] - 1]), pc := s.pc[t := Taken])
    case Own(t) => s.(ring := s.ring.(owner := t), pc := s.pc[t := Held])
    case Execute(t) => s.(log := s.log + [s.chunk[t]])
    case Finish(t, more) =>
      if s.ring.used == 0 then s
      else if more then
        s.(ring := Again(s.ring, t), pc := s.pc[t := Working], chunk := s.chunk[t := s.handed], handed := s.handed + 1, finished := s.finished + 1)
      else s.(ring := Last(s.ring), pc := s.pc[t := Gone], finished := s.finished + 1)
  }

  predicate Active(pc: Pc) {
    pc.Working? || pc.Blocked? || pc.Taken? || pc.Held?
  }

  predicate Bounded(q: seq<nat>, n: nat) {
    Links.Distinct(q) && forall i :: 0 <= i < |q| ==> q[i] < n
  }

  /** The ring holds exactly the threads with a chunk, in the order of their chunks. */
  predicate Lined(s: State)
    requires Sized(s)
  {
    var q := Queue(s.ring);
    && Bounded(q, |s.pc|)
    && (forall t :: 0 <= t < |s.pc| ==> (Active(s.pc[t]) <==> t in q))
    && s.handed == s.finished + |q|
    && forall i :: 0 <= i < |q| ==> s.chunk[q[i]] == s.finished + i
  }

  /** A thread without the token. */
  predicate Empty(s: State, t: nat)
    requires Sized(s) && t < |s.pc|
  {
    s.ring.sem[t] == 0 && s.ring.owner != t && s.pc[t] != Taken && s.pc[t] != Held
  }

  /** The token: a posted semaphore, a thread that has passed it, or an owner. */
  predicate Token(s: State, t: nat)
    requires Sized(s) && t < |s.pc|
  {
    || (s.ring.sem[t] == 1 && s.ring.owner == -1 && (s.pc[t] == Working || s.pc[t] == Blocked))
    || (s.ring.sem[t] == 0 && s.ring.owner == -1 && s.pc[t] == Taken)
    || (s.ring.sem[t] == 0 && s.ring.owner == t && s.pc[t] == Held)
  }

  /** There is one token if the ring is not empty, at its head. */
  predicate OneToken(s: State)
    requires Sized(s)
  {
    var q := Queue(s.ring);
    if q == [] then s.ring.owner == -1 && forall t: nat :: t < |s.pc| ==> Empty(s, t)
    else q[0] < |s.pc| && Token(s, q[0]) && forall t: nat :: t < |s.pc| && t != q[0] ==> Empty(s, t)
  }

  /** Ordered regions have run in the order of the chunks. */
  predicate InOrder(s: State) {
    && (forall i, j :: 0 <= i < j < |s.log| ==> s.log[i] <= s.log[j])
    && (forall i :: 0 <= i < |s.log| ==> s.log[i] <= s.finished)
  }

  predicate Inv(s: State) {
    Sized(s) && Lined(s) && OneToken(s) && InOrder(s)
  }

  // ---------- Every step keeps the invariant ----------

  /** A duplicate-free queue of some of the threads is shorter than the team. */
  lemma RoomLeft(q: seq<nat>, n: nat, t: nat)
    requires Bounded(q, n) && t < n && t !in q
    ensures |q| < n
  {
    var all := Below(n);
    var members := set i | 0 <= i < |q| :: q[i];
    Members(q, |q|);
    assert members + {t} <= all;
    assert |all - (members + {t})| == |all| - |members + {t}|;
  }

  lemma {:induction false} Members(q: seq<nat>, k: nat)
    requires Links.Distinct(q) && k <= |q|
    ensures |set i | 0 <= i < k :: q[i]| == k
  {
    if k > 0 {
      Members(q, k - 1);
      assert (set i | 0 <= i < k :: q[i]) == (set i | 0 <= i < k - 1 :: q[i]) + {q[k - 1]};
    }
  }

  /** gomp_ordered_first always finds room. */
  lemma NeverFull(s: State, t: nat)
    requires Inv(s) && t < |s.pc| && s.pc[t] == Out
    ensures s.ring.used < |s.ring.ids|
  {
    RoomLeft(Queue(s.ring), |s.pc|, t);
  }

  lemma BeginLined(s: State, t: nat)
    requires Inv(s) && t < |s.pc| && s.pc[t] == Out
    ensures Sized(Step(s, Begin(t, true))) && Lined(Step(s, Begin(t, true)))
  {
    NeverFull(s, t);
    FirstQueue(s.ring, t);
    var s', q := Step(s, Begin(t, true)), Queue(s.ring);
    assert Queue(s'.ring) == q + [t];
    forall u | 0 <= u < |s'.pc| ensures Active(s'.pc[u]) <==> u in q + [t] { }
  }

  lemma BeginToken(s: State, t: nat)
    requires Inv(s) && t < |s.pc| && s.pc[t] == Out
    ensures Sized(Step(s, Begin(t, true))) && OneToken(Step(s, Begin(t, true)))
  {
    NeverFull(s, t);
    FirstQueue(s.ring, t);
    var s', q := Step(s, Begin(t, true)), Queue(s.ring);
    assert Empty(s, t) by { assert q != [] ==> q[0] in q; }
    forall u: nat | u < |s'.pc| && u != (q + [t])[0] ensures Empty(s', u) { assert Empty(s, u); }
  }

  lemma RefusedKeeps(s: State, t: nat)
    requires Inv(s) && t < |s.pc| && s.pc[t] == Out
    ensures Inv(Step(s, Begin(t, false)))
  {
    var s', q := Step(s, Begin(t, false)), Queue(s.ring);
    assert q != [] ==> q[0] in q;
    forall u: nat | u < |s'.pc| && (q == [] || u != q[0]) ensures Empty(s', u) { assert Empty(s, u); }
  }

  /** Who has passed the semaphore is the head. */
  lemma AtHead(s: State, t: nat)
    requires Inv(s) && t < |s.pc| && (s.ring.sem[t] > 0 || s.pc[t] == Taken || s.pc[t] == Held)
    ensures Queue(s.ring) != [] && Queue(s.ring)[0] == t && Token(s, t) && s.chunk[t] == s.finished
  {
    var q := Queue(s.ring);
    assert !Empty(s, t);
    assert s.chunk[q[0]] == s.finished + 0;
  }

  /** Steps inside gomp_ordered_sync. */
  lemma SyncKeeps(s: State, e: Event)
    requires Inv(s) && Enabled(s, e) && (e.Check? || e.Wait? || e.Own?)
    ensures Inv(Step(s, e))
  {
    var s', q, t := Step(s, e), Queue(s.ring), e.t;
    assert t in q;
    if !e.Check? || s.pc[t] == Held { AtHead(s, t); }
    assert Queue(s'.ring) == q;
    forall u: nat | u < |s'.pc| && u != q[0] ensures Empty(s', u) { assert Empty(s, u); }
  }

  lemma ExecuteKeeps(s: State, t: nat)
    requires Inv(s) && t < |s.pc| && s.pc[t] == Held
    ensures Inv(Step(s, Execute(t)))
  {
    AtHead(s, t);
    var s', q := Step(s, Execute(t)), Queue(s.ring);
    forall u: nat | u < |s'.pc| && u != q[0] ensures Empty(s', u) { assert Empty(s, u); }
  }

  /** What passing the token does to the semaphores. */
  lemma AgainRing(r: Ring, t: nat)
    requires Shape(r) && r.used > 0 && Queue(r)[0] == t && forall i :: 0 <= i < |Queue(r)| ==> Queue(r)[i] < |r.sem|
    ensures Shape(Again(r, t)) && Again(r, t).owner == -1
    ensures var head := (Queue(r)[1..] + [t])[0]; head < |r.sem| && Again(r, t).sem == r.sem[head := r.sem[head] + 1]
  {
    AgainQueue(r, t);
    assert Queue(Again(r, t))[0] == Again(r, t).ids[Slot(|r.ids|, Again(r, t).cur)];
  }

  lemma LastRing(r: Ring)
    requires Shape(r) && r.used > 0 && forall i :: 0 <= i < |Queue(r)| ==> Queue(r)[i] < |r.sem|
    ensures Shape(Last(r)) && Last(r).owner == -1
    ensures r.used == 1 ==> Last(r).sem == r.sem
    ensures r.used > 1 ==> var head := Queue(r)[1]; Last(r).sem == r.sem[head := r.sem[head] + 1]
  {
  }

  lemma AgainLined(s: State, t: nat)
    requires Inv(s) && t < |s.pc| && s.pc[t] == Held
    ensures Sized(Step(s, Finish(t, true))) && Lined(Step(s, Finish(t, true)))
  {
    AtHead(s, t);
    AgainQueue(s.ring, t);
    var s', q := Step(s, Finish(t, true)), Queue(s.ring);
    var q' := q[1..] + [t];
    forall u | 0 <= u < |s'.pc| ensures u in q' <==> u in q { assert q == [t] + q[1..]; }
    forall i, j | 0 <= i < j < |q'| ensures q'[i] != q'[j] { assert q'[i] == q[i + 1]; }
    forall i | 0 <= i < |q'| ensures s'.chunk[q'[i]] == s'.finished + i && q'[i] < |s'.pc| {
      if i < |q| - 1 { assert q'[i] == q[i + 1] && s.chunk[q[i + 1]] == s.finished + (i + 1); }
    }
  }

  lemma AgainToken(s: State, t: nat)
    requires Inv(s) && t < |s.pc| && s.pc[t] == Held
    ensures Sized(Step(s, Finish(t, true))) && OneToken(Step(s, Finish(t, true)))
  {
    AtHead(s, t);
    AgainQueue(s.ring, t);
    AgainRing(s.ring, t);
    var s', q := Step(s, Finish(t, true)), Queue(s.ring);
    var head := (q[1..] + [t])[0];
    assert head != t ==> Empty(s, head);
    assert head in q;
    assert Token(s', head);
    forall u: nat | u < |s'.pc| && u != head ensures Empty(s', u) { assert u != t ==> Empty(s, u); }
  }

  lemma LastLined(s: State, t: nat)
    requires Inv(s) && t < |s.pc| && s.pc[t] == Held
    ensures Sized(Step(s, Finish(t, false))) && Lined(Step(s, Finish(t, false)))
  {
    AtHead(s, t);
    LastQueue(s.ring);
    var s', q := Step(s, Finish(t, false)), Queue(s.ring);
    var q' := q[1..];
    forall u | 0 <= u < |s'.pc| && u != t ensures u in q' <==> u in q { assert q == [t] + q'; }
    forall i, j | 0 <= i < j < |q'| ensures q'[i] != q'[j] { assert q'[i] == q[i + 1] && q'[j] == q[j + 1]; }
    forall i | 0 <= i < |q'| ensures q'[i] != t && s'.chunk[q'[i]] == s'.finished + i && q'[i] < |s'.pc| {
      assert q'[i] == q[i + 1] && s.chunk[q[i + 1]] == s.finished + (i + 1);
    }
  }

  lemma LastToken(s: State, t: nat)
    requires Inv(s) && t < |s.pc| && s.pc[t] == Held
    ensures Sized(Step(s, Finish(t, false))) && OneToken(Step(s, Finish(t, false)))
  {
    AtHead(s, t);
    LastQueue(s.ring);
    LastRing(s.ring);
    var s', q := Step(s, Finish(t, false)), Queue(s.ring);
    if |q| > 1 {
      var head := q[1];
      assert head != t && head in q && Empty(s, head);
      assert Token(s', head);
      forall u: nat | u < |s'.pc| && u != head ensures Empty(s', u) { assert u != t ==> Empty(s, u); }
    } else {
      forall u: nat | u < |s'.pc| ensures Empty(s', u) { assert u != t ==> Empty(s, u); }
    }
  }

  lemma StepKeeps(s: State, e: Event)
    requires Inv(s) && Enabled(s, e)
    ensures Inv(Step(s, e))
  {
    match e
    case Begin(t, more) =>
      if more {
        NeverFull(s, t);
        BeginLined(s, t);
        BeginToken(s, t);
      } else {
        RefusedKeeps(s, t);
      }
    case Check(t) => SyncKeeps(s, e);
    case Wait(t) => SyncKeeps(s, e);
    case Own(t) => SyncKeeps(s, e);
    case Execute(t) => ExecuteKeeps(s, t);
    case Finish(t, more) =>
      if more {
        AgainLined(s, t);
        AgainToken(s, t);
      } else {
        LastLined(s, t);
        LastToken(s, t);
      }
  }

  // ---------- What each step does ----------

  /** The next place of a thread, the next order of the ring, and the progress of the chunks. */
  predicate Goes(s: State, e: Event, s': State)
    requires Sized(s) && Sized(s') && e.t < |s.pc| == |s'.pc|
  {
    var q, q', t := Queue(s.ring), Queue(s'.ring), e.t;
    && (forall u :: 0 <= u < |s.pc| && u != t ==> s'.pc[u] == s.pc[u] && s'.chunk[u] == s.chunk[u])
    && s'.finished == (if e.Finish? then s.finished + 1 else s.finished)
    && s'.log == (if e.Execute? then s.log + [s.finished] else s.log)
    && match e
       case Begin(_, more) => q' == (if more then q + [t] else q) && s'.pc[t] == (if more then Working else Gone) && (more ==> s'.chunk[t] == s.handed)
       case Check(_) => q' == q && s'.pc[t] == if s.pc[t] == Held then Held else Blocked
       case Wait(_) => q' == q && s'.pc[t] == Taken && q != [] && q[0] == t
       case Own(_) => q' == q && s'.pc[t] == Held && s'.ring.owner == t
       case Execute(_) => q' == q && s'.pc[t] == Held
       case Finish(_, more) =>
         && q != [] && q' == (if more then q[1..] + [t] else q[1..])
         && s'.pc[t] == (if more then Working else Gone) && (more ==> s'.chunk[t] == s.handed)
  }

  lemma StepGoes(s: State, e: Event)
    requires Inv(s) && Enabled(s, e)
    ensures Sized(Step(s, e)) && |Step(s, e).pc| == |s.pc| && Goes(s, e, Step(s, e))
  {
    StepKeeps(s, e);
    match e
    case Begin(t, more) => if more { NeverFull(s, t); FirstQueue(s.ring, t); }
    case Check(t) => CheckGoes(s, t);
    case Wait(t) => AtHead(s, t); assert Queue(Step(s, e).ring) == Queue(s.ring);
    case Own(t) => assert Queue(Step(s, e).ring) == Queue(s.ring);
    case Execute(t) => AtHead(s, t);
    case Finish(t, more) =>
      AtHead(s, t);
      if more { AgainQueue(s.ring, t); } else { LastQueue(s.ring); }
  }

  lemma CheckGoes(s: State, t: nat)
    requires Inv(s) && Enabled(s, Check(t))
    ensures s.ring.owner == t <==> s.pc[t] == Held
  {
    var q := Queue(s.ring);
    assert t in q;
    if t == q[0] { assert Token(s, t); } else { assert Empty(s, t); }
  }

  // ---------- Every run ----------

  predicate Possible(s: State, events: seq<Event>)
    decreases |events|
  {
    events == [] || (Enabled(s, events[0]) && Possible(Step(s, events[0]), events[1..]))
  }

  function Run(s: State, events: seq<Event>): State
    requires Possible(s, events)
    decreases |events|
  {
    if events == [] then s else Run(Step(s, events[0]), events[1..])
  }

  lemma {:induction false} RunKeeps(s: State, events: seq<Event>)
    requires Inv(s) && Possible(s, events)
    ensures Inv(Run(s, events))
    decreases |events|
  {
    if events != [] {
      StepKeeps(s, events[0]);
      RunKeeps(Step(s, events[0]), events[1..]);
    }
  }

  /** The loop has just been set up by gomp_init_work_share. */
  function Initial(n: nat): State {
    State(Ring(seq(n, _ => 0), 0, 0, -1, seq(n, _ => 0)), seq(n, _ => Out), seq(n, _ => 0), 0, 0, [])
  }

  /** Under every interleaving ordered regions run one at a time and in the order of the chunks, and the one
      token is never lost: a thread with a chunk can always move. */
  lemma OrderedTheorem(n: nat, events: seq<Event>)
    requires n >= 2 && Possible(Initial(n), events)
    ensures var s := Run(Initial(n), events);
      && Inv(s) && |s.pc| == n && InOrder(s)
      && (forall t, u :: 0 <= t < n && 0 <= u < n && s.pc[t] == Held && s.pc[u] == Held ==> t == u)
      && (forall t :: 0 <= t < n && s.pc[t] == Held ==> s.ring.owner == t && s.chunk[t] == s.finished)
      && ((exists t :: 0 <= t < n && Active(s.pc[t])) ==> exists t: nat :: t < n && CanMove(s, t))
  {
    var i := Initial(n);
    forall t: nat | t < n ensures Empty(i, t) { }
    RunKeeps(i, events);
    SameTeam(i, events);
    var s := Run(i, events);
    forall t | 0 <= t < n && s.pc[t] == Held ensures Queue(s.ring) != [] && Queue(s.ring)[0] == t && s.ring.owner == t && s.chunk[t] == s.finished {
      AtHead(s, t);
    }
    if exists t :: 0 <= t < n && Active(s.pc[t]) { TokenMoves(s); }
  }

  lemma {:induction false} SameTeam(s: State, events: seq<Event>)
    requires Inv(s) && Possible(s, events)
    ensures |Run(s, events).pc| == |s.pc|
    decreases |events|
  {
    if events != [] {
      StepKeeps(s, events[0]);
      SameTeam(Step(s, events[0]), events[1..]);
    }
  }

  /** A step that takes the thread further: into the synchronisation, through it, or on to its next chunk. */
  predicate CanMove(s: State, t: nat) {
    || (Enabled(s, Check(t)) && s.pc[t] == Working) || Enabled(s, Wait(t)) || Enabled(s, Own(t)) || Enabled(s, Finish(t, false))
  }

  /** The head of the ring is never stuck. */
  lemma TokenMoves(s: State)
    requires Inv(s) && exists t :: 0 <= t < |s.pc| && Active(s.pc[t])
    ensures Queue(s.ring) != [] && Queue(s.ring)[0] < |s.pc| && CanMove(s, Queue(s.ring)[0])
  {
    var t :| 0 <= t < |s.pc| && Active(s.pc[t]);
    assert t in Queue(s.ring);
  }

  /** The fields as they are updated in place. */
  class OrderedShare {
    const ids: array<nat>
    const sem: array<nat>
    var cur: nat
    var used: nat
    var owner: int

    function Cur(): Ring
      reads this, ids, sem
    {
      Ring(ids[..], cur, used, owner, sem[..])
    }

    ghost predicate Valid()
      reads this, ids, sem
    {
      ids != sem && Shape(Cur())
    }

    /** gomp_init_work_share for an ordered construct. */
    constructor (n: nat)
      requires n >= 2
      ensures Valid() && Cur() == Initial(n).ring && fresh(ids) && fresh(sem)
    {
      ids := new nat[n](_ => 0);
      sem := new nat[n](_ => 0);
      cur, used, owner := 0, 0, -1;
      new;
      assert ids[..] == Initial(n).ring.ids && sem[..] == Initial(n).ring.sem;
    }

    method PostTo(t: nat)
      requires Valid()
      modifies sem
      ensures Valid() && sem[..] == Post(old(sem[..]), t)
    {
      if t < sem.Length {
        sem[t] := sem[t] + 1;
      }
    }

    method OrderedFirst(t: nat)
      requires Valid() && used < ids.Length
      modifies this, ids, sem
      ensures Valid() && Cur() == First(old(Cur()), t)
    {
      var index := cur + used;
      if index >= ids.Length {
        index := index - ids.Length;
      }
      ids[index] := t;
      used := used + 1;
      if used == 1 {
        PostTo(t);
      }
    }

    method OrderedLast()
      requires Valid() && used > 0
      modifies this, sem
      ensures Valid() && Cur() == Last(old(Cur()))
    {
      owner := -1;
      used := used - 1;
      if used > 0 {
        var next := cur + 1;
        if next == ids.Length {
          next := 0;
        }
        cur := next;
        PostTo(ids[next]);
      }
    }

    method OrderedNext(t: nat)
      requires Valid() && used > 0
      modifies this, ids, sem
      ensures Valid() && Cur() == Again(old(Cur()), t)
    {
      owner := -1;
      if used == 1 {
        PostTo(t);
        return;
      }
      if used < ids.Length {
        var index := cur + used;
        if index >= ids.Length {
          index := index - ids.Length;
        }
        ids[index] := t;
      }
      var next := cur + 1;
      if next == ids.Length {
        next := 0;
      }
      cur := next;
      PostTo(ids[next]);
    }
  }
}
