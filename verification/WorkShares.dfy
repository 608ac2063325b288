/** Reclamation of work shares in nowait runs (work.c): a list that threads push to with compare-and-swap and a
    single consumer that detaches everything behind its snapshot of the head. */
module WorkShares {
  import opened Chains
  import opened Counting
  import opened Links

  /** Where a thread stands, in single accesses to shared memory. */
  datatype Pc =
    | Idle                            // between constructs
    | Locked                          // found next_ws NULL and holds its lock
    | Looking                         // found work_share_list_alloc NULL
    | Seen(head: Ptr)                 // read work_share_list_free
    | Found(first: Id, second: Id)    // read next_free of the head
    | Cut(second: Id)                 // wrote NULL to next_free of the head
    | Got(share: Id)                  // alloc_work_share returned
    | Ready                           // initialised the new share
    | In                              // inside the construct
    | Freeing                         // last to leave: last_work_share is to be freed
    | Linking(top: Ptr)               // read work_share_list_free
    | Swapping(top: Ptr)              // wrote next_free, about to compare and swap

  /** work_share and last_work_share of a thread. */
  datatype Thread = Thread(pc: Pc, ws: Id, last: Ptr)

  /** `next` is the union of next_ws and next_free. */
  datatype State = State(threads: seq<Thread>, next: map<Id, Ptr>, completed: map<Id, nat>, listAlloc: Ptr, listFree: Ptr)

  predicate Allocating(pc: Pc) {
    pc.Locked? || pc.Looking? || pc.Seen? || pc.Found? || pc.Cut? || pc.Got? || pc.Ready?
  }

  predicate Reclaiming(pc: Pc) {
    pc.Freeing? || pc.Linking? || pc.Swapping?
  }

  function Next(st: State, x: Id): Ptr {
    if x in st.next then st.next[x] else Null
  }

  function SetThread(st: State, t: nat, th: Thread): State
    requires t < |st.threads|
  {
    st.(threads := st.threads[t := th])
  }

  // ---------- Steps ----------

  /** gomp_work_share_start up to the read of next_ws; a thread waits while another holds the lock. */
  function Start(st: State, t: nat): State
    requires t < |st.threads|
  {
    var th := st.threads[t];
    match Next(st, th.ws)
    case To(x) => SetThread(st, t, Thread(In, x, To(th.ws)))
    case Null =>
      if exists u :: 0 <= u < |st.threads| && Allocating(st.threads[u].pc) then st
      else SetThread(st, t, Thread(Locked, th.ws, To(th.ws)))
  }

  /** alloc_work_share, one access at a time. */
  function Alloc(st: State, t: nat, block: seq<Id>): State
    requires t < |st.threads| && |block| >= 1
  {
    var th := st.threads[t];
    match th.pc
    case Locked =>
      (match st.listAlloc
       case To(x) => SetThread(st, t, th.(pc := Got(x))).(listAlloc := Next(st, x))
       case Null => SetThread(st, t, th.(pc := Looking)))
    case Looking => SetThread(st, t, th.(pc := Seen(st.listFree)))
    case Seen(head) =>
      if head.To? && Next(st, head.id).To? then SetThread(st, t, th.(pc := Found(head.id, Next(st, head.id).id)))
      else SetThread(st, t, th.(pc := Got(block[0]))).(next := BlockLinks(st.next, block), listAlloc := PtrAt(block, 1))
    case Found(first, second) => SetThread(st, t, th.(pc := Cut(second))).(next := st.next[first := Null])
    case Cut(second) => SetThread(st, t, th.(pc := Got(second))).(listAlloc := Next(st, second))
    case Got(x) => // gomp_init_work_share
      SetThread(st, t, th.(pc := Ready, ws := x)).(next := st.next[x := Null], completed := st.completed[x := 0])
    case Ready => // gomp_work_share_init_done
      SetThread(st, t, th.(pc := In)).(next := if th.last.To? then st.next[th.last.id := To(th.ws)] else st.next)
    case _ => st
  }

  /** gomp_work_share_end_nowait up to the count. */
  function Leave(st: State, t: nat): State
    requires t < |st.threads|
  {
    var th := st.threads[t];
    var n := CountOf(st.completed, th.ws) + 1;
    var st' := st.(completed := st.completed[th.ws := n]);
    if n == |st.threads| then SetThread(st', t, th.(pc := Freeing)) else SetThread(st', t, th.(pc := Idle, last := Null))
  }

  /** free_work_share. */
  function Free(st: State, t: nat): State
    requires t < |st.threads|
  {
    var th := st.threads[t];
    match th.pc
    case Freeing => SetThread(st, t, th.(pc := Linking(st.listFree)))
    case Linking(top) => SetThread(st, t, th.(pc := Swapping(top))).(next := if th.last.To? then st.next[th.last.id := top] else st.next)
    case Swapping(top) =>
      if st.listFree == top then SetThread(st, t, th.(pc := Idle, last := Null)).(listFree := th.last)
      else SetThread(st, t, th.(pc := Freeing))
    case _ => st
  }

  /** The next access of thread `t`; `block` is what malloc would return. */
  function Step(st: State, t: nat, block: seq<Id>): (r: State)
    requires t < |st.threads| && |block| >= 1
    ensures |r.threads| == |st.threads|
  {
    var pc := st.threads[t].pc;
    if pc.Idle? then Start(st, t)
    else if Allocating(pc) then Alloc(st, t, block)
    else if pc.In? then Leave(st, t)
    else Free(st, t)
  }

  // ---------- Where every share is ----------

  /** Live(i) is the share of construct `i`. */
  datatype Place = Live(i: nat) | Transit | Hand | InFree | InAlloc

  /** `shares` are the constructs so far, of which the first `retired` are over; `done[t]` is the last
      construct thread `t` has left. */
  datatype View = View(
    shares: seq<Id>, retired: nat, done: seq<nat>, place: map<Id, Place>, free: seq<Id>, alloc: seq<Id>, hand: seq<Id>)

  predicate At(v: View, x: Id, p: Place) {
    x in v.place && v.place[x] == p
  }

  predicate LiveAt(next: map<Id, Ptr>, v: View, i: int)
    requires 0 <= i < |v.shares|
  {
    At(v, v.shares[i], Live(i)) && v.shares[i] in next && next[v.shares[i]] == PtrAt(v.shares, i + 1)
  }

  /** The share of every construct that is not over is where its readers expect it. */
  predicate AllLive(next: map<Id, Ptr>, v: View) {
    v.retired < |v.shares| && forall i {:trigger LiveAt(next, v, i)} :: v.retired <= i < |v.shares| ==> LiveAt(next, v, i)
  }

  function Leavers(done: seq<nat>, c: nat): set<nat> {
    set t: nat | t < |done| && done[t] >= c
  }

  function CountOf(completed: map<Id, nat>, x: Id): nat {
    if x in completed then completed[x] else 0
  }

  predicate Counted(completed: map<Id, nat>, v: View) {
    forall i :: v.retired < i < |v.shares| ==> CountOf(completed, v.shares[i]) == |Leavers(v.done, i)|
  }

  predicate Placed(v: View, s: seq<Id>, p: Place) {
    forall i :: 0 <= i < |s| ==> At(v, s[i], p)
  }

  predicate Lists(next: map<Id, Ptr>, listAlloc: Ptr, listFree: Ptr, v: View) {
    && Chain(next, listFree, v.free) && Placed(v, v.free, InFree)
    && Chain(next, listAlloc, v.alloc) && Placed(v, v.alloc, InAlloc)
    && Placed(v, v.hand, Hand)
  }

  /** What a thread holds, by where it stands; `d` is the last construct it has left. */
  predicate ThreadOk(th: Thread, d: nat, next: map<Id, Ptr>, completed: map<Id, nat>, v: View) {
    && v.retired <= d < |v.shares|
    && match th.pc
       case Idle => th.ws == v.shares[d] && th.last == Null
       case In => d + 1 < |v.shares| && th.ws == v.shares[d + 1] && th.last == To(v.shares[d])
       case Ready => v.hand == [th.ws] && th.last == To(v.shares[d]) && th.ws in next && next[th.ws] == Null && CountOf(completed, th.ws) == 0
       case Got(x) => v.hand == [x] && th.ws == v.shares[d] && th.last == To(v.shares[d])
       case Cut(x) => v.alloc == [] && th.ws == v.shares[d] && th.last == To(v.shares[d]) && Chain(next, To(x), v.hand)
       case Found(x, y) => v.alloc == [] && v.hand == [] && th.ws == v.shares[d] && th.last == To(v.shares[d]) && InARow(v.free, x, y)
       case Seen(head) => v.alloc == [] && v.hand == [] && th.ws == v.shares[d] && th.last == To(v.shares[d]) && (head.To? ==> head.id in v.free)
       case Looking => v.alloc == [] && v.hand == [] && th.ws == v.shares[d] && th.last == To(v.shares[d])
       case Locked => v.hand == [] && th.ws == v.shares[d] && th.last == To(v.shares[d])
       case _ =>
         && d == v.retired && 0 < d && th.ws == v.shares[d] && th.last == To(v.shares[d - 1]) && At(v, v.shares[d - 1], Transit)
         && (th.pc.Swapping? ==> v.shares[d - 1] in next && next[v.shares[d - 1]] == th.pc.top)
  }

  predicate InARow(s: seq<Id>, x: Id, y: Id) {
    exists k :: 0 < k < |s| && s[k - 1] == x && s[k] == y
  }

  predicate Does(st: State, t: int, role: Pc -> bool) {
    0 <= t < |st.threads| && role(st.threads[t].pc)
  }

  ghost predicate AtMostOne(st: State, role: Pc -> bool) {
    forall t, u :: Does(st, t, role) && Does(st, u, role) ==> t == u
  }

  /** One thread allocates at a time, at the newest construct, and one reclaims at a time. */
  ghost predicate Roles(st: State, v: View)
    requires |st.threads| == |v.done|
  {
    && AtMostOne(st, Allocating) && AtMostOne(st, Reclaiming)
    && (forall t :: Does(st, t, Allocating) ==> v.done[t] + 1 == |v.shares|)
    && (v.hand != [] ==> exists t :: Does(st, t, Allocating))
  }

  /** Some thread has left only the constructs that are over. */
  predicate Slowest(v: View) {
    exists t :: 0 <= t < |v.done| && v.done[t] == v.retired
  }

  ghost predicate AllThreads(st: State, v: View)
    requires |st.threads| == |v.done|
  {
    forall t: nat :: t < |st.threads| ==> ThreadOk(st.threads[t], v.done[t], st.next, st.completed, v)
  }

  ghost predicate Known(next: map<Id, Ptr>, v: View) {
    forall x :: x in v.place ==> x in next
  }

  ghost predicate Inv(st: State, v: View) {
    && |st.threads| == |v.done| && AllLive(st.next, v) && Counted(st.completed, v)
    && Lists(st.next, st.listAlloc, st.listFree, v)
    && AllThreads(st, v) && Roles(st, v) && Slowest(v) && Known(st.next, v)
  }

  // ---------- Starting and leaving a construct ----------

  lemma StartKeeps(st: State, v: View, t: nat)
    requires Inv(st, v) && t < |st.threads| && st.threads[t].pc.Idle?
    ensures Inv(Start(st, t), v)
  {
    var st', d := Start(st, t), v.done[t];
    assert LiveAt(st.next, v, d);
    if st' != st {
      assert Next(st, st.threads[t].ws) == PtrAt(v.shares, d + 1);
      StartRoles(st, v, t);
    }
  }

  lemma StartRoles(st: State, v: View, t: nat)
    requires |st.threads| == |v.done| && Roles(st, v) && t < |st.threads| && st.threads[t].pc.Idle?
    requires Next(st, st.threads[t].ws) == Null ==> v.done[t] + 1 == |v.shares|
    ensures Roles(Start(st, t), v)
  {
    var st' := Start(st, t);
    forall u | Does(st', u, Reclaiming) ensures Does(st, u, Reclaiming) { }
    forall u | u != t && Does(st', u, Allocating) ensures Does(st, u, Allocating) { }
    forall u | Does(st, u, Allocating) ensures Does(st', u, Allocating) { }
  }

  lemma LeaversStep(done: seq<nat>, t: nat, c: nat)
    requires t < |done|
    ensures |Leavers(done[t := done[t] + 1], c)| == |Leavers(done, c)| + if c == done[t] + 1 then 1 else 0
  {
    var done' := done[t := done[t] + 1];
    LeaversAt(done, t, c);
    assert Leavers(done', c) == Leavers(done, c) + if c == done[t] + 1 then {t} else {};
  }

  lemma LeaversAt(done: seq<nat>, t: nat, c: nat)
    requires t < |done|
    ensures t in Leavers(done, c) <==> done[t] >= c
    ensures forall u :: u in Leavers(done[t := done[t] + 1], c) <==> u in Leavers(done, c) || (u == t && c == done[t] + 1)
  {
  }

  lemma AllLeft(done: seq<nat>, c: nat)
    ensures |Leavers(done, c)| <= |done|
    ensures |Leavers(done, c)| == |done| <==> forall t :: 0 <= t < |done| ==> done[t] >= c
  {
    var all := Below(|done|);
    assert Leavers(done, c) <= all;
    assert |all - Leavers(done, c)| == |all| - |Leavers(done, c)|;
    if forall t :: 0 <= t < |done| ==> done[t] >= c {
      assert Leavers(done, c) == all;
    } else {
      var t: nat :| t < |done| && done[t] < c;
      assert t in all - Leavers(done, c);
    }
  }

  function LeaveView(v: View, t: nat, last: bool): View
    requires t < |v.done| && v.done[t] < |v.shares|
  {
    var d := v.done[t];
    var v' := v.(done := v.done[t := d + 1]);
    if last then v'.(retired := d + 1, place := v.place[v.shares[d] := Transit]) else v'
  }

  /** Shares that are live are different shares. */
  lemma LiveApart(next: map<Id, Ptr>, v: View, i: nat, j: nat)
    requires AllLive(next, v) && v.retired <= i < |v.shares| && v.retired <= j < |v.shares| && i != j
    ensures v.shares[i] != v.shares[j]
  {
    assert LiveAt(next, v, i) && LiveAt(next, v, j);
  }

  lemma LeaveCounts(st: State, v: View, t: nat)
    requires |st.threads| == |v.done| && t < |st.threads| && v.retired <= v.done[t] && v.done[t] + 1 < |v.shares|
    requires AllLive(st.next, v) && Counted(st.completed, v) && st.threads[t].ws == v.shares[v.done[t] + 1]
    ensures CountOf(st.completed, st.threads[t].ws) + 1 == |Leavers(v.done[t := v.done[t] + 1], v.done[t] + 1)|
    ensures Counted(Leave(st, t).completed, v.(done := v.done[t := v.done[t] + 1]))
  {
    var d := v.done[t];
    var done', st' := v.done[t := d + 1], Leave(st, t);
    LeaversStep(v.done, t, d + 1);
    forall i | v.retired < i < |v.shares| ensures CountOf(st'.completed, v.shares[i]) == |Leavers(done', i)| {
      LeaversStep(v.done, t, i);
      if i != d + 1 { LiveApart(st.next, v, i, d + 1); }
    }
  }

  /** The construct is over exactly when its last thread leaves it. */
  lemma WhoIsLast(v: View, t: nat)
    requires t < |v.done| && Slowest(v) && forall u :: 0 <= u < |v.done| ==> v.retired <= v.done[u]
    ensures var done' := v.done[t := v.done[t] + 1];
      if |Leavers(done', v.done[t] + 1)| == |v.done|
      then v.done[t] == v.retired && forall u :: 0 <= u < |v.done| && u != t ==> v.retired + 1 <= v.done[u]
      else Slowest(v.(done := done'))
  {
    var d := v.done[t];
    var done' := v.done[t := d + 1];
    AllLeft(done', d + 1);
    var w :| 0 <= w < |v.done| && v.done[w] == v.retired;
    if |Leavers(done', d + 1)| == |v.done| {
      assert done'[w] >= d + 1;
      forall u | 0 <= u < |v.done| && u != t ensures v.retired + 1 <= v.done[u] { assert done'[u] == v.done[u]; }
    } else if w != t {
      assert done'[w] == v.retired;
    } else {
      var u :| 0 <= u < |done'| && done'[u] < d + 1;
      assert done'[u] == v.retired;
    }
  }

  lemma LeaveRoles(st: State, v: View, t: nat, last: bool)
    requires |st.threads| == |v.done| && Roles(st, v) && t < |st.threads| && st.threads[t].pc.In? && v.done[t] < |v.shares|
    requires last <==> CountOf(st.completed, st.threads[t].ws) + 1 == |st.threads|
    requires last ==> forall u :: !Does(st, u, Reclaiming)
    ensures Roles(Leave(st, t), LeaveView(v, t, last))
  {
    var st' := Leave(st, t);
    forall u | Does(st', u, Allocating) ensures Does(st, u, Allocating) && u != t { }
    forall u | Does(st, u, Allocating) ensures Does(st', u, Allocating) { }
    forall u | u != t && Does(st', u, Reclaiming) ensures Does(st, u, Reclaiming) { }
    if !last { forall u | Does(st', u, Reclaiming) ensures Does(st, u, Reclaiming) { } }
  }

  lemma LeaveOther(st: State, v: View, t: nat)
    requires Inv(st, v) && t < |st.threads| && st.threads[t].pc.In?
    requires CountOf(st.completed, st.threads[t].ws) + 1 != |st.threads|
    requires Slowest(LeaveView(v, t, false)) && Counted(Leave(st, t).completed, LeaveView(v, t, false))
    ensures Inv(Leave(st, t), LeaveView(v, t, false))
  {
    var st', v' := Leave(st, t), LeaveView(v, t, false);
    LeaveRoles(st, v, t, false);
    assert ThreadOk(st.threads[t], v.done[t], st.next, st.completed, v);
    assert LiveAt(st.next, v, v.done[t] + 1);
    forall i | v'.retired <= i < |v'.shares| ensures LiveAt(st'.next, v', i) { assert LiveAt(st.next, v, i); }
    forall u: nat | u < |st'.threads| ensures ThreadOk(st'.threads[u], v'.done[u], st'.next, st'.completed, v') {
      assert ThreadOk(st.threads[u], v.done[u], st.next, st.completed, v);
      LeaveOtherThread(st, v, t, u);
    }
  }

  lemma LeaveOtherThread(st: State, v: View, t: nat, u: nat)
    requires |st.threads| == |v.done| && t < |st.threads| && u < |st.threads| && st.threads[t].pc.In?
    requires ThreadOk(st.threads[t], v.done[t], st.next, st.completed, v) && ThreadOk(st.threads[u], v.done[u], st.next, st.completed, v)
    requires LiveAt(st.next, v, v.done[t] + 1) && Placed(v, v.hand, Hand)
    requires CountOf(st.completed, st.threads[t].ws) + 1 != |st.threads|
    ensures var st', v' := Leave(st, t), LeaveView(v, t, false);
      ThreadOk(st'.threads[u], v'.done[u], st'.next, st'.completed, v')
  {
    LeaveCompleted(st, v, t, u);
  }

  /** The counter of a share that is being prepared is not touched. */
  lemma LeaveCompleted(st: State, v: View, t: nat, u: nat)
    requires |st.threads| == |v.done| && t < |st.threads| && u < |st.threads| && st.threads[t].pc.In?
    requires ThreadOk(st.threads[t], v.done[t], st.next, st.completed, v) && ThreadOk(st.threads[u], v.done[u], st.next, st.completed, v)
    requires LiveAt(st.next, v, v.done[t] + 1) && Placed(v, v.hand, Hand)
    ensures st.threads[u].pc.Ready? ==> CountOf(Leave(st, t).completed, st.threads[u].ws) == 0
  {
    if st.threads[u].pc.Ready? { assert At(v, v.hand[0], Hand); }
  }

  lemma LeaveLastThread(st: State, v: View, t: nat, u: nat)
    requires |st.threads| == |v.done| && t < |st.threads| && u < |st.threads| && st.threads[t].pc.In?
    requires ThreadOk(st.threads[t], v.done[t], st.next, st.completed, v) && ThreadOk(st.threads[u], v.done[u], st.next, st.completed, v)
    requires LiveAt(st.next, v, v.done[t] + 1) && Placed(v, v.hand, Hand)
    requires CountOf(st.completed, st.threads[t].ws) + 1 == |st.threads| && v.done[t] == v.retired
    requires u != t ==> v.retired + 1 <= v.done[u]
    ensures var st', v' := Leave(st, t), LeaveView(v, t, true);
      ThreadOk(st'.threads[u], v'.done[u], st'.next, st'.completed, v')
  {
    LeaveCompleted(st, v, t, u);
  }

  lemma LeaveLastLive(st: State, v: View, t: nat)
    requires Inv(st, v) && t < |st.threads| && v.done[t] == v.retired && v.retired + 1 < |v.shares|
    ensures AllLive(st.next, LeaveView(v, t, true))
    ensures Lists(st.next, st.listAlloc, st.listFree, LeaveView(v, t, true)) && Known(st.next, LeaveView(v, t, true))
  {
    var v' := LeaveView(v, t, true);
    assert LiveAt(st.next, v, v.retired);
    forall i | v'.retired <= i < |v'.shares| ensures LiveAt(st.next, v', i) {
      assert LiveAt(st.next, v, i);
      LiveApart(st.next, v, i, v.retired);
    }
  }

  /** A thread that still reclaims holds up the construct after. */
  lemma NoneReclaims(st: State, v: View, t: nat)
    requires |st.threads| == |v.done| && AllThreads(st, v) && t < |st.threads| && st.threads[t].pc.In?
    requires forall u :: 0 <= u < |v.done| && u != t ==> v.retired + 1 <= v.done[u]
    ensures forall u :: !Does(st, u, Reclaiming)
  {
    forall u: nat | u < |st.threads| ensures !Does(st, u, Reclaiming) {
      assert ThreadOk(st.threads[u], v.done[u], st.next, st.completed, v);
    }
  }

  lemma LeaveLastThreads(st: State, v: View, t: nat)
    requires Inv(st, v) && t < |st.threads| && st.threads[t].pc.In? && v.done[t] == v.retired
    requires CountOf(st.completed, st.threads[t].ws) + 1 == |st.threads|
    requires forall u :: 0 <= u < |v.done| && u != t ==> v.retired + 1 <= v.done[u]
    ensures AllThreads(Leave(st, t), LeaveView(v, t, true))
  {
    var st', v' := Leave(st, t), LeaveView(v, t, true);
    assert ThreadOk(st.threads[t], v.done[t], st.next, st.completed, v);
    assert LiveAt(st.next, v, v.retired + 1);
    forall u: nat | u < |st'.threads| ensures ThreadOk(st'.threads[u], v'.done[u], st'.next, st'.completed, v') {
      assert ThreadOk(st.threads[u], v.done[u], st.next, st.completed, v);
      LeaveLastThread(st, v, t, u);
    }
  }

  lemma LeaveLast(st: State, v: View, t: nat)
    requires Inv(st, v) && t < |st.threads| && st.threads[t].pc.In? && v.done[t] == v.retired
    requires CountOf(st.completed, st.threads[t].ws) + 1 == |st.threads|
    requires forall u :: 0 <= u < |v.done| && u != t ==> v.retired + 1 <= v.done[u]
    requires Counted(Leave(st, t).completed, LeaveView(v, t, false))
    ensures Inv(Leave(st, t), LeaveView(v, t, true))
  {
    var v' := LeaveView(v, t, true);
    assert ThreadOk(st.threads[t], v.done[t], st.next, st.completed, v);
    NoneReclaims(st, v, t);
    LeaveRoles(st, v, t, true);
    LeaveLastLive(st, v, t);
    LeaveLastThreads(st, v, t);
    assert Slowest(v') by { assert v'.done[t] == v'.retired; }
  }

  lemma LeaveFacts(st: State, v: View, t: nat)
    requires |st.threads| == |v.done| && t < |st.threads| && st.threads[t].pc.In?
    requires AllLive(st.next, v) && Counted(st.completed, v) && Slowest(v)
    requires ThreadOk(st.threads[t], v.done[t], st.next, st.completed, v)
    requires forall u :: 0 <= u < |v.done| ==> v.retired <= v.done[u]
    ensures v.done[t] < |v.shares| && Counted(Leave(st, t).completed, LeaveView(v, t, false))
    ensures CountOf(st.completed, st.threads[t].ws) + 1 == |st.threads| ==>
      v.done[t] == v.retired && forall u :: 0 <= u < |v.done| && u != t ==> v.retired + 1 <= v.done[u]
    ensures CountOf(st.completed, st.threads[t].ws) + 1 != |st.threads| ==> Slowest(LeaveView(v, t, false))
    ensures CountOf(st.completed, st.threads[t].ws) + 1 == |st.threads| <==>
      forall u :: 0 <= u < |v.done| && u != t ==> v.done[t] + 1 <= v.done[u]
  {
    LeaveCounts(st, v, t);
    WhoIsLast(v, t);
    AllLeftBut(v.done, t);
  }

  lemma AllLeftBut(done: seq<nat>, t: nat)
    requires t < |done|
    ensures |Leavers(done[t := done[t] + 1], done[t] + 1)| == |done| <==>
      forall u :: 0 <= u < |done| && u != t ==> done[t] + 1 <= done[u]
  {
    var done' := done[t := done[t] + 1];
    AllLeft(done', done[t] + 1);
    if forall u :: 0 <= u < |done'| ==> done'[u] >= done[t] + 1 {
      forall u | 0 <= u < |done| && u != t ensures done[t] + 1 <= done[u] { assert done'[u] == done[u]; }
    }
  }

  /** The last thread to leave puts the share of the construct before into transit. */
  predicate LeftBy(st: State, v: View, t: nat, v': View)
    requires t < |st.threads| == |v.done|
  {
    && v.done[t] < |v.shares|
    && v' == LeaveView(v, t, CountOf(st.completed, st.threads[t].ws) + 1 == |st.threads|)
    && (CountOf(st.completed, st.threads[t].ws) + 1 == |st.threads| <==>
          forall u :: 0 <= u < |v.done| && u != t ==> v.done[t] + 1 <= v.done[u])
  }

  lemma LeaveKeeps(st: State, v: View, t: nat) returns (v': View)
    requires Inv(st, v) && t < |st.threads| && st.threads[t].pc.In?
    ensures Inv(Leave(st, t), v') && LeftBy(st, v, t, v')
  {
    AllBehind(st, v);
    assert ThreadOk(st.threads[t], v.done[t], st.next, st.completed, v);
    LeaveFacts(st, v, t);
    if CountOf(st.completed, st.threads[t].ws) + 1 == |st.threads| {
      LeaveLast(st, v, t);
      v' := LeaveView(v, t, true);
    } else {
      LeaveOther(st, v, t);
      v' := LeaveView(v, t, false);
    }
  }

  lemma AllBehind(st: State, v: View)
    requires Inv(st, v)
    ensures forall u :: 0 <= u < |v.done| ==> v.retired <= v.done[u]
  {
    forall u | 0 <= u < |v.done| ensures v.retired <= v.done[u] {
      assert ThreadOk(st.threads[u], v.done[u], st.next, st.completed, v);
    }
  }

  // ---------- Freeing ----------

  lemma NotIn(v: View, s: seq<Id>, p: Place, x: Id)
    requires Placed(v, s, p) && x in v.place && v.place[x] != p
    ensures x !in s
  {
  }

  /** A write to a share in transit disturbs no list and no reader. */
  lemma TransitWrite(st: State, v: View, x: Id, p: Ptr)
    requires AllLive(st.next, v) && Lists(st.next, st.listAlloc, st.listFree, v) && At(v, x, Transit)
    ensures AllLive(st.next[x := p], v) && Lists(st.next[x := p], st.listAlloc, st.listFree, v)
  {
    var next' := st.next[x := p];
    forall i | v.retired <= i < |v.shares| ensures LiveAt(next', v, i) { assert LiveAt(st.next, v, i); }
    NotIn(v, v.free, InFree, x);
    NotIn(v, v.alloc, InAlloc, x);
    ChainFrame(st.next, st.listFree, v.free, x, p);
    ChainFrame(st.next, st.listAlloc, v.alloc, x, p);
  }

  lemma TransitThread(th: Thread, d: nat, next: map<Id, Ptr>, completed: map<Id, nat>, v: View, x: Id, p: Ptr)
    requires ThreadOk(th, d, next, completed, v) && !Reclaiming(th.pc) && At(v, x, Transit) && Placed(v, v.hand, Hand)
    ensures ThreadOk(th, d, next[x := p], completed, v)
  {
    NotIn(v, v.hand, Hand, x);
    if th.pc.Cut? { ChainFrame(next, To(th.pc.second), v.hand, x, p); }
    if th.pc.Ready? { assert th.ws in v.hand; }
  }

  /** Moves between states of the same role keep the roles. */
  lemma SameRoles(st: State, v: View, st': State, v': View, t: nat)
    requires |st.threads| == |v.done| && t < |st.threads| && Roles(st, v)
    requires |st'.threads| == |st.threads| && v'.done == v.done && v'.shares == v.shares
    requires forall u :: 0 <= u < |st.threads| && u != t ==> st'.threads[u] == st.threads[u]
    requires Allocating(st'.threads[t].pc) <==> Allocating(st.threads[t].pc)
    requires Reclaiming(st'.threads[t].pc) ==> Reclaiming(st.threads[t].pc)
    requires v'.hand != [] ==> Allocating(st'.threads[t].pc) || v'.hand == v.hand
    ensures Roles(st', v')
  {
    forall u | Does(st', u, Allocating) ensures Does(st, u, Allocating) { }
    forall u | Does(st, u, Allocating) ensures Does(st', u, Allocating) { }
    forall u | Does(st', u, Reclaiming) ensures Does(st, u, Reclaiming) { }
    if Allocating(st'.threads[t].pc) { assert Does(st', t, Allocating); }
  }

  lemma OneReclaimer(st: State, v: View, t: nat, u: nat)
    requires |st.threads| == |v.done| && Roles(st, v) && t < |st.threads| && u < |st.threads| && t != u && Reclaiming(st.threads[t].pc)
    ensures !Reclaiming(st.threads[u].pc)
  {
    assert Does(st, t, Reclaiming);
    assert Does(st, u, Reclaiming) <==> Reclaiming(st.threads[u].pc);
  }

  lemma FreeLinks(st: State, v: View, t: nat)
    requires Inv(st, v) && t < |st.threads| && st.threads[t].pc.Linking?
    ensures Inv(Free(st, t), v)
  {
    var st', d := Free(st, t), v.done[t];
    assert ThreadOk(st.threads[t], d, st.next, st.completed, v);
    var x, top := v.shares[d - 1], st.threads[t].pc.top;
    TransitWrite(st, v, x, top);
    SameRoles(st, v, st', v, t);
    forall u: nat | u < |st'.threads| ensures ThreadOk(st'.threads[u], v.done[u], st'.next, st'.completed, v) {
      assert ThreadOk(st.threads[u], v.done[u], st.next, st.completed, v);
      if u != t {
        OneReclaimer(st, v, t, u);
        TransitThread(st.threads[u], v.done[u], st.next, st.completed, v, x, top);
      }
    }
  }

  lemma FreeRetries(st: State, v: View, t: nat)
    requires Inv(st, v) && t < |st.threads|
    requires st.threads[t].pc.Freeing? || (st.threads[t].pc.Swapping? && st.listFree != st.threads[t].pc.top)
    ensures Inv(Free(st, t), v)
  {
    var st' := Free(st, t);
    SameRoles(st, v, st', v, t);
    forall u: nat | u < |st'.threads| ensures ThreadOk(st'.threads[u], v.done[u], st'.next, st'.completed, v) {
      assert ThreadOk(st.threads[u], v.done[u], st.next, st.completed, v);
    }
  }

  function PushView(v: View, x: Id): View {
    v.(free := [x] + v.free, place := v.place[x := InFree])
  }

  lemma PushLists(st: State, v: View, x: Id)
    requires AllLive(st.next, v) && Lists(st.next, st.listAlloc, st.listFree, v) && At(v, x, Transit)
    requires x in st.next && st.next[x] == st.listFree
    ensures AllLive(st.next, PushView(v, x)) && Lists(st.next, st.listAlloc, To(x), PushView(v, x))
  {
    var v' := PushView(v, x);
    NotIn(v, v.free, InFree, x);
    forall i | v.retired <= i < |v.shares| ensures LiveAt(st.next, v', i) { assert LiveAt(st.next, v, i); }
    forall i | 0 <= i < |v'.free| ensures ChainAt(st.next, v'.free, i) {
      if i > 0 { assert ChainAt(st.next, v.free, i - 1); }
    }
    forall i | 0 <= i < |v'.free| ensures At(v', v'.free[i], InFree) {
      if i > 0 { assert v'.free[i] == v.free[i - 1]; }
    }
  }

  lemma PushThread(th: Thread, d: nat, next: map<Id, Ptr>, completed: map<Id, nat>, v: View, x: Id)
    requires ThreadOk(th, d, next, completed, v) && !Reclaiming(th.pc)
    ensures ThreadOk(th, d, next, completed, PushView(v, x))
  {
    if th.pc.Found? {
      var k :| 0 < k < |v.free| && v.free[k - 1] == th.pc.first && v.free[k] == th.pc.second;
      assert PushView(v, x).free[k] == th.pc.first && PushView(v, x).free[k + 1] == th.pc.second;
    }
  }

  lemma FreePushes(st: State, v: View, t: nat) returns (v': View)
    requires Inv(st, v) && t < |st.threads| && st.threads[t].pc.Swapping? && st.listFree == st.threads[t].pc.top
    ensures Inv(Free(st, t), v') && 0 < v.done[t] <= |v.shares| && v' == PushView(v, v.shares[v.done[t] - 1])
  {
    var st', d := Free(st, t), v.done[t];
    assert ThreadOk(st.threads[t], d, st.next, st.completed, v);
    var x := v.shares[d - 1];
    v' := PushView(v, x);
    PushLists(st, v, x);
    SameRoles(st, v, st', v', t);
    forall u: nat | u < |st'.threads| ensures ThreadOk(st'.threads[u], v'.done[u], st'.next, st'.completed, v') {
      assert ThreadOk(st.threads[u], v.done[u], st.next, st.completed, v);
      if u != t {
        OneReclaimer(st, v, t, u);
        PushThread(st.threads[u], v.done[u], st.next, st.completed, v, x);
      }
    }
  }

  lemma FreeKeeps(st: State, v: View, t: nat) returns (v': View)
    requires Inv(st, v) && t < |st.threads| && Reclaiming(st.threads[t].pc)
    ensures Inv(Free(st, t), v')
  {
    v' := v;
    if st.threads[t].pc.Linking? {
      FreeLinks(st, v, t);
    } else if st.threads[t].pc.Freeing? || st.listFree != st.threads[t].pc.top {
      FreeRetries(st, v, t);
    } else {
      v' := FreePushes(st, v, t);
    }
  }

  // ---------- Allocating ----------

  /** What allocation leaves alone. */
  ghost predicate Undisturbed(next: map<Id, Ptr>, v: View, next': map<Id, Ptr>, v': View) {
    && v'.retired == v.retired && v'.done == v.done && v.shares <= v'.shares
    && forall x :: At(v, x, Transit) ==> At(v', x, Transit) && (x in next ==> x in next' && next'[x] == next[x])
  }

  lemma OtherThread(th: Thread, d: nat, next: map<Id, Ptr>, completed: map<Id, nat>, v: View, next': map<Id, Ptr>, completed': map<Id, nat>, v': View)
    requires ThreadOk(th, d, next, completed, v) && !Allocating(th.pc) && Undisturbed(next, v, next', v')
    ensures ThreadOk(th, d, next', completed', v')
  {
  }

  lemma OneAllocator(st: State, v: View, t: nat, u: nat)
    requires |st.threads| == |v.done| && Roles(st, v) && t < |st.threads| && u < |st.threads| && t != u && Allocating(st.threads[t].pc)
    ensures !Allocating(st.threads[u].pc)
  {
    assert Does(st, t, Allocating);
    assert Does(st, u, Allocating) <==> Allocating(st.threads[u].pc);
  }

  /** Only the allocator needs a proof of its own. */
  lemma AllocThreads(st: State, v: View, st': State, v': View, t: nat)
    requires |st.threads| == |v.done| == |st'.threads| && t < |st.threads| && AllThreads(st, v) && Roles(st, v) && Allocating(st.threads[t].pc)
    requires Undisturbed(st.next, v, st'.next, v')
    requires forall u :: 0 <= u < |st.threads| && u != t ==> st'.threads[u] == st.threads[u]
    requires ThreadOk(st'.threads[t], v'.done[t], st'.next, st'.completed, v')
    ensures AllThreads(st', v')
  {
    forall u: nat | u < |st'.threads| ensures ThreadOk(st'.threads[u], v'.done[u], st'.next, st'.completed, v') {
      if u != t {
        OneAllocator(st, v, t, u);
        assert ThreadOk(st.threads[u], v.done[u], st.next, st.completed, v);
        OtherThread(st.threads[u], v.done[u], st.next, st.completed, v, st'.next, st'.completed, v');
      }
    }
  }

  /** Steps that only read: nothing to take, the head of the free list, and its successor. */
  lemma AllocLooks(st: State, v: View, t: nat, block: seq<Id>)
    requires Inv(st, v) && t < |st.threads| && |block| >= 1
    requires var pc := st.threads[t].pc; (pc.Locked? && st.listAlloc == Null) || pc.Looking?
                                         || (pc.Seen? && pc.head.To? && Next(st, pc.head.id).To?)
    ensures Inv(Alloc(st, t, block), v)
  {
    var st', pc := Alloc(st, t, block), st.threads[t].pc;
    assert ThreadOk(st.threads[t], v.done[t], st.next, st.completed, v);
    if pc.Seen? {
      var k :| 0 <= k < |v.free| && v.free[k] == pc.head.id;
      assert ChainAt(st.next, v.free, k);
      assert InARow(v.free, v.free[k], v.free[k + 1]);
    }
    SameRoles(st, v, st', v, t);
    AllocThreads(st, v, st', v, t);
  }

  function PopView(v: View): View
    requires v.alloc != []
  {
    v.(alloc := v.alloc[1..], hand := [v.alloc[0]], place := v.place[v.alloc[0] := Hand])
  }

  lemma PopLists(st: State, v: View)
    requires AllLive(st.next, v) && Lists(st.next, st.listAlloc, st.listFree, v) && v.alloc != []
    ensures st.listAlloc == To(v.alloc[0]) && AllLive(st.next, PopView(v))
    ensures Lists(st.next, Next(st, v.alloc[0]), st.listFree, PopView(v))
  {
    var v', x := PopView(v), v.alloc[0];
    TailChain(st.next, st.listAlloc, v.alloc);
    assert At(v, x, InAlloc);
    NotIn(v, v.free, InFree, x);
    forall i | v.retired <= i < |v.shares| ensures LiveAt(st.next, v', i) { assert LiveAt(st.next, v, i); }
    forall i | 0 <= i < |v'.alloc| ensures At(v', v'.alloc[i], InAlloc) { assert v'.alloc[i] == v.alloc[i + 1]; }
  }

  lemma AllocPops(st: State, v: View, t: nat, block: seq<Id>) returns (v': View)
    requires Inv(st, v) && t < |st.threads| && |block| >= 1 && st.threads[t].pc.Locked? && st.listAlloc.To?
    ensures Inv(Alloc(st, t, block), v') && v.alloc != [] && v' == PopView(v) && st.listAlloc == To(v.alloc[0])
  {
    var st' := Alloc(st, t, block);
    v' := PopView(v);
    assert ThreadOk(st.threads[t], v.done[t], st.next, st.completed, v);
    PopLists(st, v);
    assert At(v, v.alloc[0], InAlloc);
    SameRoles(st, v, st', v', t);
    AllocThreads(st, v, st', v', t);
  }

  // The second half of the free list is detached.

  function PlaceAll(place: map<Id, Place>, s: seq<Id>, p: Place): map<Id, Place> {
    map x | x in place :: if x in s then p else place[x]
  }

  function CutView(v: View, k: nat): View
    requires k < |v.free|
  {
    v.(free := v.free[..k], hand := v.free[k..], place := PlaceAll(v.place, v.free[k..], Hand))
  }

  lemma CutPlaces(v: View, k: nat)
    requires k < |v.free| && Distinct(v.free) && Placed(v, v.free, InFree)
    ensures Placed(CutView(v, k), v.free[..k], InFree) && Placed(CutView(v, k), v.free[k..], Hand)
    ensures forall x, p :: At(v, x, p) && p != InFree ==> At(CutView(v, k), x, p)
  {
    var v', a, b := CutView(v, k), v.free[..k], v.free[k..];
    forall i | 0 <= i < |b| ensures At(v', b[i], Hand) && At(v, b[i], InFree) { assert b[i] == v.free[k + i]; }
    forall i | 0 <= i < |a| ensures At(v', a[i], InFree) { assert a[i] == v.free[i]; assert At(v, v.free[i], InFree); }
    assert Placed(v, b, InFree);
    forall x, p | At(v, x, p) && p != InFree ensures At(v', x, p) { NotIn(v, b, InFree, x); }
  }

  lemma CutLists(st: State, v: View, k: nat)
    requires AllLive(st.next, v) && Lists(st.next, st.listAlloc, st.listFree, v) && v.alloc == [] && 0 < k < |v.free|
    ensures var next', v' := st.next[v.free[k - 1] := Null], CutView(v, k);
      AllLive(next', v') && Lists(next', st.listAlloc, st.listFree, v') && Chain(next', To(v.free[k]), v'.hand)
  {
    var next', v' := st.next[v.free[k - 1] := Null], CutView(v, k);
    CutChains(st.next, st.listFree, v.free, k);
    CutPlaces(v, k);
    assert At(v, v.free[k - 1], InFree);
    forall i | v.retired <= i < |v.shares| ensures LiveAt(next', v', i) { assert LiveAt(st.next, v, i); }
  }

  lemma AllocCuts(st: State, v: View, t: nat, block: seq<Id>) returns (v': View)
    requires Inv(st, v) && t < |st.threads| && |block| >= 1 && st.threads[t].pc.Found?
    ensures Inv(Alloc(st, t, block), v') && CutBy(v, st.threads[t].pc.first, st.threads[t].pc.second, v')
  {
    var st', pc := Alloc(st, t, block), st.threads[t].pc;
    assert ThreadOk(st.threads[t], v.done[t], st.next, st.completed, v);
    var k :| 0 < k < |v.free| && v.free[k - 1] == pc.first && v.free[k] == pc.second;
    v' := CutView(v, k);
    CutLists(st, v, k);
    CutOthers(st, v, k);
    SameRoles(st, v, st', v', t);
    AllocThreads(st, v, st', v', t);
  }

  ghost predicate CutBy(v: View, x: Id, y: Id, v': View) {
    exists k :: 0 < k < |v.free| && v.free[k - 1] == x && v.free[k] == y && v' == CutView(v, k)
  }

  lemma CutOthers(st: State, v: View, k: nat)
    requires Lists(st.next, st.listAlloc, st.listFree, v) && 0 < k < |v.free| && Known(st.next, v)
    ensures Undisturbed(st.next, v, st.next[v.free[k - 1] := Null], CutView(v, k))
    ensures Known(st.next[v.free[k - 1] := Null], CutView(v, k))
  {
    CutPlaces(v, k);
    assert At(v, v.free[k - 1], InFree);
  }

  // The detached part becomes the list to allocate from.

  function TakeView(v: View): View
    requires v.hand != []
  {
    v.(alloc := v.hand[1..], hand := [v.hand[0]], place := PlaceAll(v.place, v.hand[1..], InAlloc))
  }

  lemma TakePlaces(v: View)
    requires v.hand != [] && Distinct(v.hand) && Placed(v, v.hand, Hand)
    ensures Placed(TakeView(v), v.hand[1..], InAlloc) && At(TakeView(v), v.hand[0], Hand)
    ensures forall x, p :: At(v, x, p) && p != Hand ==> At(TakeView(v), x, p)
  {
    var v', b := TakeView(v), v.hand[1..];
    forall i | 0 <= i < |b| ensures At(v', b[i], InAlloc) && At(v, b[i], Hand) { assert b[i] == v.hand[i + 1]; }
    assert At(v, v.hand[0], Hand) && v.hand[0] !in b;
    assert Placed(v, b, Hand);
    forall x, p | At(v, x, p) && p != Hand ensures At(v', x, p) { NotIn(v, b, Hand, x); }
  }

  lemma TakeLists(st: State, v: View, x: Id)
    requires AllLive(st.next, v) && Lists(st.next, st.listAlloc, st.listFree, v) && v.alloc == [] && Chain(st.next, To(x), v.hand)
    ensures v.hand != [] && v.hand[0] == x && AllLive(st.next, TakeView(v))
    ensures Lists(st.next, Next(st, x), st.listFree, TakeView(v))
  {
    var v' := TakeView(v);
    TakePlaces(v);
    TailChain(st.next, To(x), v.hand);
    forall i | v.retired <= i < |v.shares| ensures LiveAt(st.next, v', i) { assert LiveAt(st.next, v, i); }
  }

  lemma AllocTakes(st: State, v: View, t: nat, block: seq<Id>) returns (v': View)
    requires Inv(st, v) && t < |st.threads| && |block| >= 1 && st.threads[t].pc.Cut?
    ensures Inv(Alloc(st, t, block), v') && v.hand != [] && v.hand[0] == st.threads[t].pc.second && v' == TakeView(v)
  {
    var st' := Alloc(st, t, block);
    assert ThreadOk(st.threads[t], v.done[t], st.next, st.completed, v);
    TakeLists(st, v, st.threads[t].pc.second);
    v' := TakeView(v);
    TakePlaces(v);
    SameRoles(st, v, st', v', t);
    AllocThreads(st, v, st', v', t);
  }

  // A new block.

  function BlockView(v: View, block: seq<Id>): View
    requires |block| >= 1
  {
    v.(alloc := block[1..], hand := [block[0]],
       place := map x | x in v.place.Keys + (set y | y in block) ::
         if x !in block then v.place[x] else if x == block[0] then Hand else InAlloc)
  }

  lemma BlockPlaces(next: map<Id, Ptr>, v: View, block: seq<Id>)
    requires NewBlock(next, block) && Known(next, v)
    ensures Placed(BlockView(v, block), block[1..], InAlloc) && At(BlockView(v, block), block[0], Hand)
    ensures forall x, p :: At(v, x, p) ==> At(BlockView(v, block), x, p) && x !in block
    ensures Known(BlockLinks(next, block), BlockView(v, block))
  {
    var v', b := BlockView(v, block), block[1..];
    forall i | 0 <= i < |b| ensures At(v', b[i], InAlloc) { assert b[i] == block[i + 1] && b[i] in block; }
    assert block[0] in block;
  }

  lemma BlockChain(next: map<Id, Ptr>, block: seq<Id>)
    requires NewBlock(next, block)
    ensures Chain(BlockLinks(next, block), PtrAt(block, 1), block[1..])
  {
    BlockChainWhole(next, block);
    assert ChainAt(BlockLinks(next, block), block, 0);
    TailChain(BlockLinks(next, block), PtrAt(block, 0), block);
  }

  lemma BlockLists(st: State, v: View, block: seq<Id>)
    requires AllLive(st.next, v) && Lists(st.next, st.listAlloc, st.listFree, v) && NewBlock(st.next, block) && Known(st.next, v)
    ensures AllLive(BlockLinks(st.next, block), BlockView(v, block))
    ensures Lists(BlockLinks(st.next, block), PtrAt(block, 1), st.listFree, BlockView(v, block))
  {
    var next', v' := BlockLinks(st.next, block), BlockView(v, block);
    BlockPlaces(st.next, v, block);
    BlockChain(st.next, block);
    ChainFrameBlock(st.next, st.listFree, v.free, block);
    forall i | v.retired <= i < |v.shares| ensures LiveAt(next', v', i) { assert LiveAt(st.next, v, i); }
  }

  lemma AllocGrows(st: State, v: View, t: nat, block: seq<Id>) returns (v': View)
    requires Inv(st, v) && t < |st.threads| && NewBlock(st.next, block) && st.threads[t].pc.Seen?
    requires var head := st.threads[t].pc.head; !(head.To? && Next(st, head.id).To?)
    ensures Inv(Alloc(st, t, block), v') && v' == BlockView(v, block)
  {
    var st' := Alloc(st, t, block);
    assert ThreadOk(st.threads[t], v.done[t], st.next, st.completed, v);
    v' := BlockView(v, block);
    BlockLists(st, v, block);
    BlockPlaces(st.next, v, block);
    SameRoles(st, v, st', v', t);
    AllocThreads(st, v, st', v', t);
  }

  // The new share is initialised and published.

  lemma InitLists(st: State, v: View, x: Id)
    requires AllLive(st.next, v) && Counted(st.completed, v) && Lists(st.next, st.listAlloc, st.listFree, v) && v.hand == [x]
    ensures AllLive(st.next[x := Null], v) && Lists(st.next[x := Null], st.listAlloc, st.listFree, v)
    ensures Counted(st.completed[x := 0], v) && At(v, x, Hand)
  {
    var next' := st.next[x := Null];
    assert At(v, v.hand[0], Hand);
    NotIn(v, v.free, InFree, x);
    NotIn(v, v.alloc, InAlloc, x);
    ChainFrame(st.next, st.listFree, v.free, x, Null);
    ChainFrame(st.next, st.listAlloc, v.alloc, x, Null);
    forall i | v.retired <= i < |v.shares| ensures LiveAt(next', v, i) && v.shares[i] != x { assert LiveAt(st.next, v, i); }
  }

  lemma AllocInits(st: State, v: View, t: nat, block: seq<Id>)
    requires Inv(st, v) && t < |st.threads| && |block| >= 1 && st.threads[t].pc.Got?
    ensures Inv(Alloc(st, t, block), v)
  {
    var st' := Alloc(st, t, block);
    assert ThreadOk(st.threads[t], v.done[t], st.next, st.completed, v);
    InitLists(st, v, st.threads[t].pc.share);
    SameRoles(st, v, st', v, t);
    AllocThreads(st, v, st', v, t);
  }

  function PublishView(v: View, x: Id): View {
    v.(shares := v.shares + [x], hand := [], place := v.place[x := Live(|v.shares|)])
  }

  lemma PublishLive(next: map<Id, Ptr>, v: View, x: Id)
    requires AllLive(next, v) && At(v, x, Hand) && x in next && next[x] == Null
    ensures AllLive(next[v.shares[|v.shares| - 1] := To(x)], PublishView(v, x))
  {
    var n := |v.shares|;
    var next', v' := next[v.shares[n - 1] := To(x)], PublishView(v, x);
    assert LiveAt(next, v, n - 1);
    forall i | v'.retired <= i < |v'.shares| ensures LiveAt(next', v', i) {
      if i < n {
        assert LiveAt(next, v, i);
        if i < n - 1 { LiveApart(next, v, i, n - 1); }
      }
    }
  }

  lemma PublishLists(st: State, v: View, x: Id)
    requires AllLive(st.next, v) && Lists(st.next, st.listAlloc, st.listFree, v) && At(v, x, Hand)
    ensures var next' := st.next[v.shares[|v.shares| - 1] := To(x)]; Lists(next', st.listAlloc, st.listFree, PublishView(v, x))
  {
    var last := v.shares[|v.shares| - 1];
    assert LiveAt(st.next, v, |v.shares| - 1);
    NotIn(v, v.free, InFree, last);
    NotIn(v, v.alloc, InAlloc, last);
    NotIn(v, v.free, InFree, x);
    NotIn(v, v.alloc, InAlloc, x);
    ChainFrame(st.next, st.listFree, v.free, last, To(x));
    ChainFrame(st.next, st.listAlloc, v.alloc, last, To(x));
  }

  lemma PublishCounts(completed: map<Id, nat>, v: View, x: Id)
    requires Counted(completed, v) && CountOf(completed, x) == 0 && forall u :: 0 <= u < |v.done| ==> v.done[u] < |v.shares|
    ensures Counted(completed, PublishView(v, x))
  {
    assert Leavers(v.done, |v.shares|) == {};
  }

  lemma PublishRoles(st: State, v: View, t: nat, block: seq<Id>, x: Id)
    requires |st.threads| == |v.done| && Roles(st, v) && t < |st.threads| && |block| >= 1 && st.threads[t].pc.Ready?
    ensures Roles(Alloc(st, t, block), PublishView(v, x))
  {
    var st' := Alloc(st, t, block);
    forall u | 0 <= u < |st.threads| ensures !Does(st', u, Allocating) {
      if u != t { OneAllocator(st, v, t, u); }
    }
    forall u | Does(st', u, Reclaiming) ensures Does(st, u, Reclaiming) { }
  }

  lemma AllocPublishes(st: State, v: View, t: nat, block: seq<Id>) returns (v': View)
    requires Inv(st, v) && t < |st.threads| && |block| >= 1 && st.threads[t].pc.Ready?
    ensures Inv(Alloc(st, t, block), v') && v' == PublishView(v, st.threads[t].ws)
  {
    var st', x := Alloc(st, t, block), st.threads[t].ws;
    assert ThreadOk(st.threads[t], v.done[t], st.next, st.completed, v);
    assert Does(st, t, Allocating);
    assert At(v, v.hand[0], Hand);
    v' := PublishView(v, x);
    PublishLive(st.next, v, x);
    PublishLists(st, v, x);
    forall u | 0 <= u < |v.done| ensures v.done[u] < |v.shares| {
      assert ThreadOk(st.threads[u], v.done[u], st.next, st.completed, v);
    }
    PublishCounts(st.completed, v, x);
    PublishRoles(st, v, t, block, x);
    PublishOthers(st, v, x);
    AllocThreads(st, v, st', v', t);
  }

  lemma PublishOthers(st: State, v: View, x: Id)
    requires AllLive(st.next, v) && At(v, x, Hand)
    ensures Undisturbed(st.next, v, st.next[v.shares[|v.shares| - 1] := To(x)], PublishView(v, x))
  {
    assert LiveAt(st.next, v, |v.shares| - 1);
  }

  lemma AllocKeeps(st: State, v: View, t: nat, block: seq<Id>) returns (v': View)
    requires Inv(st, v) && t < |st.threads| && NewBlock(st.next, block) && Allocating(st.threads[t].pc)
    ensures Inv(Alloc(st, t, block), v')
  {
    v' := v;
    match st.threads[t].pc
    case Locked => if st.listAlloc == Null { AllocLooks(st, v, t, block); } else { v' := AllocPops(st, v, t, block); }
    case Looking => AllocLooks(st, v, t, block);
    case Seen(head) =>
      if head.To? && Next(st, head.id).To? { AllocLooks(st, v, t, block); } else { v' := AllocGrows(st, v, t, block); }
    case Found(_, _) => v' := AllocCuts(st, v, t, block);
    case Cut(_) => v' := AllocTakes(st, v, t, block);
    case Got(_) => AllocInits(st, v, t, block);
    case Ready => v' := AllocPublishes(st, v, t, block);
  }

  // ---------- No share is lost ----------

  /** The place of a share is where it can be found. */
  ghost predicate KeptAt(st: State, v: View, x: Id)
    requires x in v.place
  {
    match v.place[x]
    case Live(i) => v.retired <= i < |v.shares| && v.shares[i] == x
    case InFree => x in v.free
    case InAlloc => x in v.alloc
    case Hand => x in v.hand
    case Transit => exists t :: Frees(st, t, x)
  }

  /** Thread `t` is freeing `x`. */
  predicate Frees(st: State, t: int, x: Id) {
    Does(st, t, Reclaiming) && st.threads[t].last == To(x)
  }

  /** Every share ever obtained belongs to a construct that is not over, is on the free list or on the list to
      allocate from, is being handed out, or is being freed by a thread. */
  ghost predicate Kept(st: State, v: View) {
    && (forall x :: x in v.place ==> KeptAt(st, v, x))
    && (forall x :: x in st.next ==> x in v.place)
  }

  lemma KeptSame(st: State, v: View, t: nat, st': State)
    requires Kept(st, v) && t < |st.threads| == |st'.threads| && st'.next.Keys == st.next.Keys
    requires forall u :: 0 <= u < |st.threads| && u != t ==> st'.threads[u] == st.threads[u]
    requires Reclaiming(st.threads[t].pc) ==> Reclaiming(st'.threads[t].pc) && st'.threads[t].last == st.threads[t].last
    ensures Kept(st', v)
  {
    forall x | x in v.place ensures KeptAt(st', v, x) {
      assert KeptAt(st, v, x);
      if v.place[x].Transit? {
        var u :| Frees(st, u, x);
        assert Frees(st', u, x);
      }
    }
  }

  /** Places change from one list to another. */
  lemma KeptMoves(st: State, v: View, t: nat, st': State, v': View)
    requires Kept(st, v) && t < |st.threads| == |st'.threads|
    requires forall u :: 0 <= u < |st.threads| && u != t ==> st'.threads[u] == st.threads[u]
    requires Reclaiming(st.threads[t].pc) ==> Reclaiming(st'.threads[t].pc) && st'.threads[t].last == st.threads[t].last
    requires v'.retired == v.retired && v.shares <= v'.shares && v.place.Keys <= v'.place.Keys
    requires forall x :: x in st'.next ==> x in v'.place
    requires forall x :: x in v'.place && !(x in v.place && v'.place[x] == v.place[x]) ==> KeptAt(st', v', x)
    requires forall x :: x in v.place && v'.place[x] == v.place[x] ==>
      match v.place[x] case Live(_) => true case Transit => true
        case InFree => x in v.free ==> x in v'.free case InAlloc => x in v.alloc ==> x in v'.alloc case Hand => x in v.hand ==> x in v'.hand
    ensures Kept(st', v')
  {
    forall x | x in v'.place ensures KeptAt(st', v', x) {
      if x in v.place && v'.place[x] == v.place[x] {
        assert KeptAt(st, v, x);
        if v.place[x].Transit? {
          var u :| Frees(st, u, x);
          assert Frees(st', u, x);
        }
      }
    }
  }

  lemma InTail(s: seq<Id>, x: Id)
    requires s != [] && x in s && x != s[0]
    ensures x in s[1..]
  {
  }

  lemma InHalf(s: seq<Id>, k: nat, x: Id)
    requires k <= |s| && x in s
    ensures x in s[..k] || x in s[k..]
  {
    assert s == s[..k] + s[k..];
  }

  lemma PopKept(st: State, v: View, t: nat, block: seq<Id>)
    requires Inv(st, v) && Kept(st, v) && t < |st.threads| && |block| >= 1 && st.threads[t].pc.Locked?
    requires st.listAlloc.To? && v.alloc != [] && st.listAlloc == To(v.alloc[0])
    ensures Kept(Alloc(st, t, block), PopView(v))
  {
    assert ThreadOk(st.threads[t], v.done[t], st.next, st.completed, v);
    assert At(v, v.alloc[0], InAlloc);
    KeptMoves(st, v, t, Alloc(st, t, block), PopView(v));
  }

  lemma CutKept(st: State, v: View, t: nat, block: seq<Id>, k: nat)
    requires Inv(st, v) && Kept(st, v) && t < |st.threads| && |block| >= 1 && st.threads[t].pc.Found?
    requires 0 < k < |v.free| && v.free[k - 1] == st.threads[t].pc.first
    ensures Kept(Alloc(st, t, block), CutView(v, k))
  {
    var v' := CutView(v, k);
    assert ThreadOk(st.threads[t], v.done[t], st.next, st.completed, v);
    assert At(v, v.free[k - 1], InFree);
    forall x | x in v.free ensures x in v'.free || x in v'.hand { InHalf(v.free, k, x); }
    KeptMoves(st, v, t, Alloc(st, t, block), v');
  }

  lemma TakeKept(st: State, v: View, t: nat, block: seq<Id>)
    requires Inv(st, v) && Kept(st, v) && t < |st.threads| && |block| >= 1 && st.threads[t].pc.Cut?
    requires v.hand != [] && v.hand[0] == st.threads[t].pc.second
    ensures Kept(Alloc(st, t, block), TakeView(v))
  {
    assert ThreadOk(st.threads[t], v.done[t], st.next, st.completed, v);
    assert At(v, v.hand[0], Hand);
    KeptMoves(st, v, t, Alloc(st, t, block), TakeView(v));
  }

  lemma GrowKept(st: State, v: View, t: nat, block: seq<Id>)
    requires Inv(st, v) && Kept(st, v) && t < |st.threads| && NewBlock(st.next, block) && st.threads[t].pc.Seen?
    requires var head := st.threads[t].pc.head; !(head.To? && Next(st, head.id).To?)
    ensures Kept(Alloc(st, t, block), BlockView(v, block))
  {
    var v' := BlockView(v, block);
    assert ThreadOk(st.threads[t], v.done[t], st.next, st.completed, v);
    BlockPlaces(st.next, v, block);
    forall x | x in block ensures x in v'.place && KeptAt(Alloc(st, t, block), v', x) && x !in v.place {
      if x != block[0] { InTail(block, x); }
    }
    KeptMoves(st, v, t, Alloc(st, t, block), v');
  }

  lemma PublishKept(st: State, v: View, t: nat, block: seq<Id>)
    requires Inv(st, v) && Kept(st, v) && t < |st.threads| && |block| >= 1 && st.threads[t].pc.Ready?
    ensures Kept(Alloc(st, t, block), PublishView(v, st.threads[t].ws))
  {
    var x, n := st.threads[t].ws, |v.shares|;
    assert ThreadOk(st.threads[t], v.done[t], st.next, st.completed, v);
    assert At(v, v.hand[0], Hand);
    assert Does(st, t, Allocating);
    assert LiveAt(st.next, v, n - 1);
    assert PublishView(v, x).shares[n] == x;
    KeptMoves(st, v, t, Alloc(st, t, block), PublishView(v, x));
  }

  lemma LeaveKept(st: State, v: View, t: nat, v': View)
    requires Inv(st, v) && Kept(st, v) && t < |st.threads| && st.threads[t].pc.In? && LeftBy(st, v, t, v')
    ensures Kept(Leave(st, t), v')
  {
    var st', d := Leave(st, t), v.done[t];
    assert ThreadOk(st.threads[t], d, st.next, st.completed, v);
    AllBehind(st, v);
    assert LiveAt(st.next, v, d);
    forall x | x in v'.place ensures KeptAt(st', v', x) {
      assert KeptAt(st, v, x);
      if v'.place[x].Transit? {
        if v.place[x].Transit? {
          var u :| Frees(st, u, x);
          assert Frees(st', u, x);
        } else {
          assert Frees(st', t, x);
        }
      } else if v.place[x].Live? && v'.retired != v.retired {
        assert v.done[t] == v.retired by { LastIsSlowest(v, t); }
      }
    }
  }

  lemma LastIsSlowest(v: View, t: nat)
    requires t < |v.done| && Slowest(v) && v.retired <= v.done[t]
    requires forall u :: 0 <= u < |v.done| && u != t ==> v.done[t] + 1 <= v.done[u]
    ensures v.done[t] == v.retired
  {
  }

  lemma PushKept(st: State, v: View, t: nat)
    requires Inv(st, v) && Kept(st, v) && t < |st.threads| && st.threads[t].pc.Swapping? && st.listFree == st.threads[t].pc.top
    ensures 0 < v.done[t] <= |v.shares| && Kept(Free(st, t), PushView(v, v.shares[v.done[t] - 1]))
  {
    assert ThreadOk(st.threads[t], v.done[t], st.next, st.completed, v);
    var st', x := Free(st, t), v.shares[v.done[t] - 1];
    var v' := PushView(v, x);
    forall y | y in v'.place ensures KeptAt(st', v', y) {
      assert KeptAt(st, v, y);
      if v.place[y].Transit? { OneInTransit(st, v, t, y); }
    }
  }

  lemma OneInTransit(st: State, v: View, t: nat, y: Id)
    requires |st.threads| == |v.done| && Roles(st, v) && t < |st.threads| && Reclaiming(st.threads[t].pc)
    requires y in v.place && v.place[y].Transit? && KeptAt(st, v, y)
    ensures st.threads[t].last == To(y)
  {
    var u: nat :| Frees(st, u, y);
    if u != t { OneReclaimer(st, v, t, u); }
  }

  // ---------- What each access does ----------

  predicate OtherAllocates(st: State, t: nat) {
    exists u :: 0 <= u < |st.threads| && u != t && Allocating(st.threads[u].pc)
  }

  /** Where a thread goes from where it stands, and what becomes of the lists, in terms of constructs and lists. */
  ghost predicate Goes(st: State, v: View, t: nat, block: seq<Id>, st': State, v': View)
    requires t < |st.threads| == |v.done| && |st'.threads| == |st.threads| && |block| >= 1
  {
    var pc, pc', d := st.threads[t].pc, st'.threads[t].pc, v.done[t];
    match pc
    case Idle =>
      v' == v && if d + 1 < |v.shares| then pc' == In else if OtherAllocates(st, t) then st' == st else pc' == Locked
    case Locked => if v.alloc == [] then v' == v && pc' == Looking else v' == PopView(v) && pc' == Got(v.alloc[0])
    case Looking => v' == v && pc' == Seen(PtrAt(v.free, 0))
    case Seen(head) =>
      if head.To? && (exists y :: InARow(v.free, head.id, y)) then v' == v && exists y :: InARow(v.free, head.id, y) && pc' == Found(head.id, y)
      else v' == BlockView(v, block) && pc' == Got(block[0])
    case Found(x, y) => CutBy(v, x, y, v') && pc' == Cut(y)
    case Cut(y) => v.hand != [] && v' == TakeView(v) && pc' == Got(y)
    case Got(x) => v' == v && pc' == Ready && st'.threads[t].ws == x
    case Ready => v' == PublishView(v, st.threads[t].ws) && pc' == In
    case In => LeftBy(st, v, t, v') && pc' == if (forall u :: 0 <= u < |v.done| && u != t ==> d + 1 <= v.done[u]) then Freeing else Idle
    case Freeing => v' == v && pc' == Linking(PtrAt(v.free, 0))
    case Linking(top) => v' == v && pc' == Swapping(top)
    case Swapping(top) =>
      if top == PtrAt(v.free, 0) then 0 < d <= |v.shares| && v' == PushView(v, v.shares[d - 1]) && pc' == Idle
      else v' == v && pc' == Freeing
  }

  lemma StartGoes(st: State, v: View, t: nat, block: seq<Id>)
    requires Inv(st, v) && t < |st.threads| && |block| >= 1 && st.threads[t].pc.Idle?
    ensures Goes(st, v, t, block, Start(st, t), v)
  {
    assert ThreadOk(st.threads[t], v.done[t], st.next, st.completed, v);
    assert LiveAt(st.next, v, v.done[t]);
  }

  /** The successor of the head that was read decides, as the source tests next_free of it. */
  lemma SeenSuccessor(st: State, v: View, t: nat)
    requires Inv(st, v) && t < |st.threads| && st.threads[t].pc.Seen?
    ensures var head := st.threads[t].pc.head;
      head.To? ==> if Next(st, head.id).To? then InARow(v.free, head.id, Next(st, head.id).id) else forall y :: !InARow(v.free, head.id, y)
  {
    var head := st.threads[t].pc.head;
    assert ThreadOk(st.threads[t], v.done[t], st.next, st.completed, v);
    if head.To? {
      var k :| 0 <= k < |v.free| && v.free[k] == head.id;
      assert ChainAt(st.next, v.free, k);
      if k + 1 < |v.free| { assert InARow(v.free, v.free[k], v.free[k + 1]); }
      forall y | InARow(v.free, head.id, y) ensures Next(st, head.id).To? {
        var j :| 0 < j < |v.free| && v.free[j - 1] == head.id && v.free[j] == y;
        assert j - 1 == k;
      }
    }
  }

  lemma AllocGood(st: State, v: View, t: nat, block: seq<Id>) returns (v': View)
    requires Inv(st, v) && Kept(st, v) && t < |st.threads| && NewBlock(st.next, block) && Allocating(st.threads[t].pc)
    ensures Inv(Alloc(st, t, block), v') && Kept(Alloc(st, t, block), v') && Goes(st, v, t, block, Alloc(st, t, block), v')
  {
    assert ThreadOk(st.threads[t], v.done[t], st.next, st.completed, v);
    v' := v;
    match st.threads[t].pc
    case Locked =>
      if st.listAlloc == Null {
        AllocLooks(st, v, t, block);
        KeptSame(st, v, t, Alloc(st, t, block));
      } else {
        v' := AllocPops(st, v, t, block);
        PopKept(st, v, t, block);
      }
    case Looking =>
      AllocLooks(st, v, t, block);
      KeptSame(st, v, t, Alloc(st, t, block));
    case Seen(head) => v' := SeenGood(st, v, t, block);
    case Found(x, y) => v' := FoundGood(st, v, t, block);
    case Cut(_) =>
      v' := AllocTakes(st, v, t, block);
      TakeKept(st, v, t, block);
    case Got(_) => GotGood(st, v, t, block);
    case Ready =>
      v' := AllocPublishes(st, v, t, block);
      PublishKept(st, v, t, block);
  }

  lemma SeenGood(st: State, v: View, t: nat, block: seq<Id>) returns (v': View)
    requires Inv(st, v) && Kept(st, v) && t < |st.threads| && NewBlock(st.next, block) && st.threads[t].pc.Seen?
    ensures Inv(Alloc(st, t, block), v') && Kept(Alloc(st, t, block), v') && Goes(st, v, t, block, Alloc(st, t, block), v')
  {
    var head := st.threads[t].pc.head;
    SeenSuccessor(st, v, t);
    if head.To? && Next(st, head.id).To? {
      AllocLooks(st, v, t, block);
      KeptSame(st, v, t, Alloc(st, t, block));
      v' := v;
    } else {
      v' := AllocGrows(st, v, t, block);
      GrowKept(st, v, t, block);
    }
  }

  lemma FoundGood(st: State, v: View, t: nat, block: seq<Id>) returns (v': View)
    requires Inv(st, v) && Kept(st, v) && t < |st.threads| && |block| >= 1 && st.threads[t].pc.Found?
    ensures Inv(Alloc(st, t, block), v') && Kept(Alloc(st, t, block), v') && Goes(st, v, t, block, Alloc(st, t, block), v')
  {
    v' := AllocCuts(st, v, t, block);
    var k :| 0 < k < |v.free| && v.free[k - 1] == st.threads[t].pc.first && v.free[k] == st.threads[t].pc.second && v' == CutView(v, k);
    CutKept(st, v, t, block, k);
  }

  lemma GotGood(st: State, v: View, t: nat, block: seq<Id>)
    requires Inv(st, v) && Kept(st, v) && t < |st.threads| && |block| >= 1 && st.threads[t].pc.Got?
    ensures Inv(Alloc(st, t, block), v) && Kept(Alloc(st, t, block), v) && Goes(st, v, t, block, Alloc(st, t, block), v)
  {
    assert ThreadOk(st.threads[t], v.done[t], st.next, st.completed, v);
    assert At(v, v.hand[0], Hand);
    AllocInits(st, v, t, block);
    KeptSame(st, v, t, Alloc(st, t, block));
  }

  lemma FreeGood(st: State, v: View, t: nat, block: seq<Id>) returns (v': View)
    requires Inv(st, v) && Kept(st, v) && t < |st.threads| && |block| >= 1 && Reclaiming(st.threads[t].pc)
    ensures Inv(Free(st, t), v') && Kept(Free(st, t), v') && Goes(st, v, t, block, Free(st, t), v')
  {
    assert ThreadOk(st.threads[t], v.done[t], st.next, st.completed, v);
    v' := v;
    if st.threads[t].pc.Linking? {
      assert At(v, v.shares[v.done[t] - 1], Transit);
      FreeLinks(st, v, t);
      KeptSame(st, v, t, Free(st, t));
    } else if st.threads[t].pc.Freeing? || st.listFree != st.threads[t].pc.top {
      FreeRetries(st, v, t);
      KeptSame(st, v, t, Free(st, t));
    } else {
      v' := FreePushes(st, v, t);
      PushKept(st, v, t);
    }
  }

  lemma IdleGood(st: State, v: View, t: nat, block: seq<Id>)
    requires Inv(st, v) && Kept(st, v) && t < |st.threads| && |block| >= 1 && st.threads[t].pc.Idle?
    ensures Inv(Start(st, t), v) && Kept(Start(st, t), v) && Goes(st, v, t, block, Start(st, t), v)
  {
    StartKeeps(st, v, t);
    StartGoes(st, v, t, block);
    KeptSame(st, v, t, Start(st, t));
  }

  lemma InGood(st: State, v: View, t: nat, block: seq<Id>) returns (v': View)
    requires Inv(st, v) && Kept(st, v) && t < |st.threads| && |block| >= 1 && st.threads[t].pc.In?
    ensures Inv(Leave(st, t), v') && Kept(Leave(st, t), v') && Goes(st, v, t, block, Leave(st, t), v')
  {
    v' := LeaveKeeps(st, v, t);
    LeaveKept(st, v, t, v');
  }

  lemma OneThread(st: State, t: nat, block: seq<Id>)
    requires t < |st.threads| && |block| >= 1
    ensures forall u :: 0 <= u < |st.threads| && u != t ==> Step(st, t, block).threads[u] == st.threads[u]
  {
  }

  /** Every access keeps the invariant and loses no share, and does to constructs and lists what `Goes` says. */
  lemma StepGood(st: State, v: View, t: nat, block: seq<Id>) returns (v': View)
    requires Inv(st, v) && Kept(st, v) && t < |st.threads| && NewBlock(st.next, block)
    ensures Inv(Step(st, t, block), v') && Kept(Step(st, t, block), v') && Goes(st, v, t, block, Step(st, t, block), v')
    ensures forall u :: 0 <= u < |st.threads| && u != t ==> Step(st, t, block).threads[u] == st.threads[u]
  {
    var pc := st.threads[t].pc;
    OneThread(st, t, block);
    if pc.Idle? {
      IdleGood(st, v, t, block);
      v' := v;
    } else if Allocating(pc) {
      v' := AllocGood(st, v, t, block);
    } else if pc.In? {
      v' := InGood(st, v, t, block);
    } else {
      v' := FreeGood(st, v, t, block);
    }
  }

  // ---------- Every run ----------

  /** A turn of a thread, and the block malloc would give it. */
  datatype Turn = Turn(thread: nat, block: seq<Id>)

  /** Every turn is of a thread of the team, and malloc returns memory that is not in use. */
  ghost predicate Possible(st: State, turns: seq<Turn>)
    decreases |turns|
  {
    turns == []
    || (turns[0].thread < |st.threads| && NewBlock(st.next, turns[0].block)
        && Possible(Step(st, turns[0].thread, turns[0].block), turns[1..]))
  }

  ghost function Run(st: State, turns: seq<Turn>): State
    requires Possible(st, turns)
    decreases |turns|
  {
    if turns == [] then st else Run(Step(st, turns[0].thread, turns[0].block), turns[1..])
  }

  lemma {:induction false} RunKeeps(st: State, v: View, turns: seq<Turn>) returns (v': View)
    requires Inv(st, v) && Kept(st, v) && Possible(st, turns)
    ensures Inv(Run(st, turns), v') && Kept(Run(st, turns), v')
    decreases |turns|
  {
    if turns == [] {
      v' := v;
    } else {
      var v1 := StepGood(st, v, turns[0].thread, turns[0].block);
      v' := RunKeeps(Step(st, turns[0].thread, turns[0].block), v1, turns[1..]);
    }
  }

  /** A new team: share 0 is current, the other seven can be allocated. */
  function Initial(n: nat): State {
    State(seq(n, _ => Thread(Idle, 0, Null)),
          map[0 := Null, 1 := To(2), 2 := To(3), 3 := To(4), 4 := To(5), 5 := To(6), 6 := To(7), 7 := Null], map[], To(1), Null)
  }

  lemma InitialInv(n: nat) returns (v: View)
    requires n > 0
    ensures Inv(Initial(n), v) && Kept(Initial(n), v)
  {
    var st := Initial(n);
    v := InitialView(n);
    assert v.done[0] == v.retired;
    InitialLists(n);
    forall t | 0 <= t < n ensures !Does(st, t, Allocating) && !Does(st, t, Reclaiming) { }
    forall x | x in v.place ensures KeptAt(st, v, x) {
      if x > 0 { assert v.alloc[x - 1] == x; }
    }
  }

  function InitialView(n: nat): View {
    var place := map[0 := Live(0), 1 := InAlloc, 2 := InAlloc, 3 := InAlloc, 4 := InAlloc, 5 := InAlloc, 6 := InAlloc, 7 := InAlloc];
    View([0], 0, seq(n, _ => 0), place, [], [1, 2, 3, 4, 5, 6, 7], [])
  }

  lemma InitialLists(n: nat)
    ensures var st, v := Initial(n), InitialView(n);
      AllLive(st.next, v) && Lists(st.next, st.listAlloc, st.listFree, v) && Known(st.next, v)
  {
    var st, v := Initial(n), InitialView(n);
    assert LiveAt(st.next, v, 0);
    forall i | 0 <= i < |v.alloc| ensures ChainAt(st.next, v.alloc, i) && At(v, v.alloc[i], InAlloc) {
      assert v.alloc[i] == i + 1;
    }
  }

  // ---------- Safety ----------

  /** The shares a thread may still read: its current one and, to publish or to link, the one before. */
  predicate MayRead(th: Thread, x: Id) {
    x == th.ws || (!Reclaiming(th.pc) && th.last == To(x))
  }

  ghost predicate OnList(next: map<Id, Ptr>, head: Ptr, x: Id) {
    exists s :: Chain(next, head, s) && x in s
  }

  /** Neither free nor about to be allocated. */
  ghost predicate Unreclaimed(st: State, x: Id) {
    !OnList(st.next, st.listFree, x) && !OnList(st.next, st.listAlloc, x)
  }

  /** What no interleaving may break: a share somebody may read is on no list and is not being freed, and a
      share that is being handed out is read by nobody else. */
  ghost predicate Safe(st: State) {
    && (forall t: nat, x :: t < |st.threads| && MayRead(st.threads[t], x) ==> Unreclaimed(st, x))
    && (forall t: nat, u: nat, x :: t < |st.threads| && u < |st.threads| && MayRead(st.threads[t], x) ==>
          !(Reclaiming(st.threads[u].pc) && st.threads[u].last == To(x)))
    && (forall t: nat, u: nat :: t < |st.threads| && u < |st.threads| && t != u && st.threads[u].pc.Got? ==>
          !MayRead(st.threads[t], st.threads[u].pc.share) && Unreclaimed(st, st.threads[u].pc.share))
  }

  /** What may be read is live, or in the hands of the thread that prepares it. */
  lemma WhereReadable(st: State, v: View, t: nat, x: Id)
    requires Inv(st, v) && t < |st.threads| && MayRead(st.threads[t], x)
    ensures x in v.place && (v.place[x].Live? || (v.place[x] == Hand && st.threads[t].pc.Ready?))
  {
    var th, d := st.threads[t], v.done[t];
    assert ThreadOk(th, d, st.next, st.completed, v);
    assert LiveAt(st.next, v, d);
    if th.pc.In? { assert LiveAt(st.next, v, d + 1); }
    if th.pc.Ready? { assert At(v, v.hand[0], Hand); }
  }

  lemma OffLists(st: State, v: View, x: Id)
    requires Inv(st, v) && x in v.place && v.place[x] != InFree && v.place[x] != InAlloc
    ensures Unreclaimed(st, x)
  {
    NotIn(v, v.free, InFree, x);
    NotIn(v, v.alloc, InAlloc, x);
    forall s | Chain(st.next, st.listFree, s) ensures x !in s { OneChain(st.next, st.listFree, s, v.free); }
    forall s | Chain(st.next, st.listAlloc, s) ensures x !in s { OneChain(st.next, st.listAlloc, s, v.alloc); }
  }

  lemma InvSafe(st: State, v: View)
    requires Inv(st, v)
    ensures Safe(st)
  {
    forall t: nat, x | t < |st.threads| && MayRead(st.threads[t], x) ensures Unreclaimed(st, x) {
      WhereReadable(st, v, t, x);
      OffLists(st, v, x);
    }
    forall t: nat, u: nat, x | t < |st.threads| && u < |st.threads| && MayRead(st.threads[t], x)
      ensures !(Reclaiming(st.threads[u].pc) && st.threads[u].last == To(x))
    {
      WhereReadable(st, v, t, x);
      assert ThreadOk(st.threads[u], v.done[u], st.next, st.completed, v);
    }
    forall t: nat, u: nat | t < |st.threads| && u < |st.threads| && t != u && st.threads[u].pc.Got?
      ensures !MayRead(st.threads[t], st.threads[u].pc.share) && Unreclaimed(st, st.threads[u].pc.share)
    {
      HandedOnce(st, v, t, u);
    }
  }

  lemma HandedOnce(st: State, v: View, t: nat, u: nat)
    requires Inv(st, v) && t < |st.threads| && u < |st.threads| && t != u && st.threads[u].pc.Got?
    ensures !MayRead(st.threads[t], st.threads[u].pc.share) && Unreclaimed(st, st.threads[u].pc.share)
  {
    var x := st.threads[u].pc.share;
    assert ThreadOk(st.threads[u], v.done[u], st.next, st.completed, v);
    assert At(v, v.hand[0], Hand);
    OneAllocator(st, v, u, t);
    OffLists(st, v, x);
    if MayRead(st.threads[t], x) { WhereReadable(st, v, t, x); }
  }

  /** Under every interleaving of any number of threads; and no share is lost. */
  lemma ReclamationTheorem(n: nat, turns: seq<Turn>)
    requires n > 0 && Possible(Initial(n), turns)
    ensures Safe(Run(Initial(n), turns)) && exists v :: Inv(Run(Initial(n), turns), v) && Kept(Run(Initial(n), turns), v)
  {
    var v := InitialInv(n);
    var v' := RunKeeps(Initial(n), v, turns);
    InvSafe(Run(Initial(n), turns), v');
  }
}
