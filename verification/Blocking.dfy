/** Blocking and unblocking of tasks suspended in taskwait (task.h, task.c): the is_blocked flags, the
    side of each queue a task stands on, and the children counters, under suspension, resumption,
    completion, creation and the release of dependent children. */
module Blocking {

  type Task = nat

  /** Where a task stands in one queue: among the schedulable tasks, among the running ones at the end
      of a children queue, on the blocked side, or not in the queue. */
  datatype Place = Absent | Schedulable | AmongRunning | Blocked

  /** Held: created, not yet queued because of a dependence.  Waiting: fresh, or untied and suspended. */
  datatype Kind = Held | Waiting | Running | TiedSuspended

  datatype Parent = NoParent | Of(task: Task)

  /** One struct gomp_task: `child`, `team` and `susp` are its places in the children queue of the parent,
      in the team queue and in the suspended queue of the thread that suspended it. */
  datatype Rec = Rec(
    untied: bool,
    untiedBlock: bool,
    parent: Parent,
    kind: Kind,
    inTaskwait: bool,
    isBlocked: bool,
    child: Place,
    team: Place,
    susp: Place,
    numChildren: int,
    numWaiting: int)

  type State = map<Task, Rec>

  /** IS_BLOCKED_TIED and IS_BLOCKED_UNTIED. */
  predicate MustBlock(r: Rec) {
    r.numChildren > 0 && (!r.untied || r.untiedBlock || r.numWaiting == 0)
  }

  function Side(blocked: bool): Place {
    if blocked then Blocked else Schedulable
  }

  /** The task itself moves to the blocked or to the open side of its queues. */
  function Flip(r: Rec, blocked: bool): Rec {
    if !r.untied then r.(isBlocked := blocked, susp := if r.susp == Absent then Absent else Side(blocked))
    else r.(isBlocked := blocked,
            child := if r.parent == NoParent then r.child else Side(blocked),
            team := Side(blocked),
            susp := if r.susp == Absent then Absent else Side(blocked))
  }

  /** num_priority_node and num_waiting_priority_node of the parent's children queues change. */
  function Bump(st: State, p: Parent, dn: int, dw: int): State {
    if p.Of? && p.task in st then st[p.task := BumpRec(st[p.task], dn, dw)] else st
  }

  function BumpRec(r: Rec, dn: int, dw: int): Rec {
    r.(numChildren := r.numChildren + dn, numWaiting := r.numWaiting + dw)
  }

  predicate Notifies(st: State, p: Parent) {
    p.Of? && p.task in st && st[p.task].inTaskwait
  }

  /** gomp_task_handle_blocking: make the flag of `t` agree with its children and pass the change on. */
  function HandleBlocking(st: State, t: Task): State
    requires Acyclic(st)
    decreases t
  {
    if t !in st then st
    else
      var r := st[t];
      if !r.untied then
        if r.kind != TiedSuspended || r.isBlocked == MustBlock(r) then st
        else st[t := Flip(r, MustBlock(r))]
      else
        if r.kind != Waiting || r.isBlocked == MustBlock(r) then st
        else
          var st1 := Bump(st[t := Flip(r, MustBlock(r))], r.parent, 0, if MustBlock(r) then -1 else 1);
          if Notifies(st1, r.parent) then HandleBlocking(st1, r.parent.task) else st1
  }

  function NotifyParent(st: State, p: Parent): State
    requires Acyclic(st)
  {
    if Notifies(st, p) then HandleBlocking(st, p.task) else st
  }

  // ---------- The steps ----------

  /** gomp_suspend_tied_task_for_successor and gomp_suspend_untied_task_for_successor. */
  function Suspend(st: State, t: Task): State
    requires Acyclic(st) && t in st
  {
    var r := st[t];
    var b := r.inTaskwait && MustBlock(r);
    if !r.untied then st[t := r.(kind := TiedSuspended, isBlocked := b, susp := Side(b))]
    else
      var r1 := r.(kind := Waiting, isBlocked := b, child := if r.parent == NoParent then r.child else Side(b),
                   team := Side(b), susp := Side(b));
      if b then st[t := r1]
      else NotifyParent(Bump(st[t := r1], r.parent, 0, 1), r.parent)
  }

  /** gomp_task_run_pre of a task on the open side, or of a tied task that its thread returns to. */
  function RunPre(st: State, t: Task): State
    requires Acyclic(st) && t in st
  {
    var r := st[t];
    if r.kind == TiedSuspended then st[t := r.(kind := Running, susp := Absent)]
    else
      var r1 := r.(kind := Running, child := if r.parent == NoParent then r.child else AmongRunning,
                   team := Absent, susp := Absent);
      NotifyParent(Bump(st[t := r1], r.parent, 0, -1), r.parent)
  }

  /** The children of the terminated `t` lose their parent. */
  function OrphanRec(r: Rec, t: Task): Rec {
    if r.parent == Of(t) then r.(parent := NoParent, child := Absent) else r
  }

  function Orphan(st: State, t: Task): State {
    map c | c in st && c != t :: OrphanRec(st[c], t)
  }

  /** Termination: leave the parent's queue and wake the parent when that queue became empty. */
  function Terminate(st: State, t: Task): State
    requires Acyclic(st) && t in st
  {
    var p := st[t].parent;
    var st1 := Bump(Orphan(st, t), p, -1, 0);
    if p.Of? && p.task in st1 && st1[p.task].numChildren == 0 then NotifyParent(st1, p) else st1
  }

  /** GOMP_task by the running `p`; a dependent child is held back and in no queue. */
  function Create(st: State, p: Task, id: Task, untied: bool, held: bool): State
    requires p in st
  {
    var place := if held then Absent else Schedulable;
    var c := Rec(untied, st[p].untiedBlock, Of(p), if held then Held else Waiting, false, false, place, place, Absent, 0, 0);
    var n := if held then 0 else 1;
    st[p := BumpRec(st[p], n, n)][id := c]
  }

  /** gomp_task_run_post_handle_dependers: a held child enters the queues. */
  function Release(st: State, t: Task): State
    requires Acyclic(st) && t in st
  {
    var p := st[t].parent;
    var r := st[t].(kind := Waiting, child := if p == NoParent then Absent else Schedulable, team := Schedulable);
    NotifyParent(Bump(st[t := r], p, 1, 1), p)
  }

  /** GOMP_taskwait sets and clears in_taskwait of the running task. */
  function SetTaskwait(st: State, t: Task, on: bool): State
    requires t in st
  {
    st[t := st[t].(inTaskwait := on)]
  }

  // ---------- The invariant ----------

  predicate Acyclic(st: State) {
    forall t :: t in st && st[t].parent.Of? ==> st[t].parent.task < t
  }

  function QueuedChildren(st: State, p: Task): set<Task> {
    set c | c in st && st[c].parent == Of(p) && st[c].child != Absent
  }

  function OpenChildren(st: State, p: Task): set<Task> {
    set c | c in st && st[c].parent == Of(p) && st[c].child == Schedulable
  }

  /** The counters of the children queues count. */
  ghost predicate CountsOk(st: State) {
    forall p :: p in st ==>
      st[p].numChildren == |QueuedChildren(st, p)| && st[p].numWaiting == |OpenChildren(st, p)|
  }

  /** The flag agrees with the side the task occupies in every queue it is in. */
  predicate PlacesOk(r: Rec) {
    match r.kind
    case Held => !r.isBlocked && r.child == Absent && r.team == Absent && r.susp == Absent
    case Running =>
      r.team == Absent && r.susp == Absent && r.child == if r.parent == NoParent then Absent else AmongRunning
    case TiedSuspended =>
      && !r.untied && r.susp == Side(r.isBlocked) && r.team == Absent
      && r.child == if r.parent == NoParent then Absent else AmongRunning
    case Waiting =>
      && (r.untied || !r.isBlocked)
      && r.team == Side(r.isBlocked) && (r.susp == Absent || (r.untied && r.susp == Side(r.isBlocked)))
      && r.child == if r.parent == NoParent then Absent else Side(r.isBlocked)
  }

  predicate Suspended(r: Rec) {
    r.kind == TiedSuspended || r.kind == Waiting
  }

  /** Only a task that runs or is suspended waits in taskwait; a suspended task that does not is open. */
  predicate Loose(r: Rec) {
    && (r.inTaskwait ==> r.kind == TiedSuspended || r.kind == Running || (r.kind == Waiting && r.untied))
    && (Suspended(r) && !r.inTaskwait ==> !r.isBlocked)
  }

  /** No lost (and no spurious) unblock: a task suspended in taskwait is flagged exactly when it must be. */
  predicate Tight(r: Rec) {
    Suspended(r) && r.inTaskwait ==> (r.isBlocked <==> MustBlock(r))
  }

  ghost predicate ParentsOk(st: State) {
    && Acyclic(st)
    && forall t :: t in st && st[t].parent.Of? ==> st[t].parent.task in st
  }

  /** Everything holds, except that the flag of `off` may lag behind. */
  ghost predicate InvBut(st: State, off: Parent) {
    && ParentsOk(st) && CountsOk(st)
    && (forall x :: x in st ==> PlacesOk(st[x]) && Loose(st[x]))
    && (forall x :: x in st && Of(x) != off ==> Tight(st[x]))
  }

  ghost predicate Inv(st: State) {
    InvBut(st, NoParent)
  }

  // ---------- Counting ----------

  function Queued1(r: Rec): int {
    if r.child != Absent then 1 else 0
  }

  function Open1(r: Rec): int {
    if r.child == Schedulable then 1 else 0
  }

  lemma QueuedAfter(st: State, t: Task, r: Rec, q: Task)
    requires t in st && r.parent == st[t].parent
    ensures |QueuedChildren(st[t := r], q)| ==
            |QueuedChildren(st, q)| + if r.parent == Of(q) then Queued1(r) - Queued1(st[t]) else 0
  {
    var n, n' := QueuedChildren(st, q), QueuedChildren(st[t := r], q);
    assert n' == if r.parent == Of(q) && r.child != Absent then n + {t} else n - {t};
    assert t in n <==> r.parent == Of(q) && st[t].child != Absent;
  }

  lemma OpenAfter(st: State, t: Task, r: Rec, q: Task)
    requires t in st && r.parent == st[t].parent
    ensures |OpenChildren(st[t := r], q)| ==
            |OpenChildren(st, q)| + if r.parent == Of(q) then Open1(r) - Open1(st[t]) else 0
  {
    var w, w' := OpenChildren(st, q), OpenChildren(st[t := r], q);
    assert w' == if r.parent == Of(q) && r.child == Schedulable then w + {t} else w - {t};
    assert t in w <==> r.parent == Of(q) && st[t].child == Schedulable;
  }

  lemma BumpChildren(st: State, p: Parent, dn: int, dw: int, q: Task)
    ensures |QueuedChildren(Bump(st, p, dn, dw), q)| == |QueuedChildren(st, q)|
    ensures |OpenChildren(Bump(st, p, dn, dw), q)| == |OpenChildren(st, q)|
  {
    if p.Of? && p.task in st {
      QueuedAfter(st, p.task, Bump(st, p, dn, dw)[p.task], q);
      OpenAfter(st, p.task, Bump(st, p, dn, dw)[p.task], q);
    }
  }

  lemma MoveCounts(st: State, t: Task, r: Rec)
    requires ParentsOk(st) && CountsOk(st) && t in st && r.parent == st[t].parent
    requires r.numChildren == st[t].numChildren && r.numWaiting == st[t].numWaiting
    ensures CountsOk(Bump(st[t := r], r.parent, Queued1(r) - Queued1(st[t]), Open1(r) - Open1(st[t])))
  {
    var dn, dw := Queued1(r) - Queued1(st[t]), Open1(r) - Open1(st[t]);
    var st' := Bump(st[t := r], r.parent, dn, dw);
    forall q | q in st'
      ensures st'[q].numChildren == |QueuedChildren(st', q)| && st'[q].numWaiting == |OpenChildren(st', q)|
    {
      QueuedAfter(st, t, r, q);
      OpenAfter(st, t, r, q);
      BumpChildren(st[t := r], r.parent, dn, dw, q);
    }
  }

  lemma MoveAt(st: State, t: Task, r: Rec, dn: int, dw: int, x: Task)
    requires t in st && x in st && PlacesOk(r) && Loose(r) && Tight(r) && r.parent == st[t].parent
    requires x != t ==> PlacesOk(st[x]) && Loose(st[x]) && Tight(st[x])
    ensures var st' := Bump(st[t := r], r.parent, dn, dw);
      && x in st' && PlacesOk(st'[x]) && Loose(st'[x]) && st'[x].parent == st[x].parent
      && (Of(x) != r.parent ==> Tight(st'[x]))
  {
  }

  lemma MoveRest(st: State, t: Task, r: Rec, dn: int, dw: int)
    requires t in st && InvBut(st, Of(t)) && PlacesOk(r) && Loose(r) && Tight(r) && r.parent == st[t].parent
    ensures var st' := Bump(st[t := r], r.parent, dn, dw);
      && ParentsOk(st')
      && (forall x :: x in st' ==> PlacesOk(st'[x]) && Loose(st'[x]))
      && (forall x :: x in st' && Of(x) != r.parent ==> Tight(st'[x]))
  {
    var st' := Bump(st[t := r], r.parent, dn, dw);
    assert st'.Keys == st.Keys;
    forall x | x in st'
      ensures PlacesOk(st'[x]) && Loose(st'[x]) && (Of(x) != r.parent ==> Tight(st'[x]))
      ensures st'[x].parent == st[x].parent
    {
      MoveAt(st, t, r, dn, dw, x);
    }
  }

  /** `t` changes its places and flag consistently and the counters of its parent follow: at most the
      flag of the parent lags behind. */
  lemma Move(st: State, t: Task, r: Rec)
    requires t in st && InvBut(st, Of(t)) && PlacesOk(r) && Loose(r) && Tight(r)
    requires r.parent == st[t].parent && r.numChildren == st[t].numChildren && r.numWaiting == st[t].numWaiting
    ensures InvBut(Bump(st[t := r], r.parent, Queued1(r) - Queued1(st[t]), Open1(r) - Open1(st[t])), r.parent)
  {
    MoveCounts(st, t, r);
    MoveRest(st, t, r, Queued1(r) - Queued1(st[t]), Open1(r) - Open1(st[t]));
  }

  lemma BumpNone(st: State, p: Parent)
    ensures Bump(st, p, 0, 0) == st
  {
  }

  lemma StayTight(st: State, t: Task, r: Rec, st': State)
    requires t in st && Tight(r) && (forall x :: x in st && Of(x) != Of(t) ==> Tight(st[x])) && st' == st[t := r]
    ensures forall x :: x in st' ==> Tight(st'[x])
  {
  }

  /** ... and none if `t` keeps its place among the children. */
  lemma Stay(st: State, t: Task, r: Rec)
    requires t in st && InvBut(st, Of(t)) && PlacesOk(r) && Loose(r) && Tight(r)
    requires r.parent == st[t].parent && r.numChildren == st[t].numChildren && r.numWaiting == st[t].numWaiting
    requires Queued1(r) == Queued1(st[t]) && Open1(r) == Open1(st[t])
    ensures Inv(st[t := r])
  {
    MoveCounts(st, t, r);
    MoveRest(st, t, r, 0, 0);
    BumpNone(st[t := r], r.parent);
    StayTight(st, t, r, st[t := r]);
  }

  // ---------- The cascade ----------

  lemma Weaken(st: State, off: Parent)
    requires Inv(st)
    ensures InvBut(st, off)
  {
  }

  /** Whatever the flag of `t` was, afterwards the flags of all tasks agree with their children. */
  lemma {:induction false} HandleBlockingKeeps(st: State, t: Task)
    requires InvBut(st, Of(t)) && t in st && st[t].inTaskwait
    ensures Inv(HandleBlocking(st, t))
    decreases t, 0
  {
    var r := st[t];
    if !Suspended(r) || r.isBlocked == MustBlock(r) {
      assert Tight(r);
    } else {
      var r1 := Flip(r, MustBlock(r));
      if !r.untied {
        Stay(st, t, r1);
      } else {
        Move(st, t, r1);
        var st1 := Bump(st[t := r1], r.parent, 0, if MustBlock(r) then -1 else 1);
        CascadeUp(st, t, r1, st1);
        if r.parent.Of? { NotifyKeeps(st1, r.parent); }
      }
    }
  }

  lemma CascadeUp(st: State, t: Task, r1: Rec, st1: State)
    requires t in st && PlacesOk(st[t]) && st[t].untied && st[t].kind == Waiting
    requires st[t].isBlocked != MustBlock(st[t]) && r1 == Flip(st[t], MustBlock(st[t]))
    requires st1 == Bump(st[t := r1], st[t].parent, 0, if MustBlock(st[t]) then -1 else 1)
    ensures st1 == Bump(st[t := r1], r1.parent, Queued1(r1) - Queued1(st[t]), Open1(r1) - Open1(st[t]))
  {
  }

  lemma {:induction false} NotifyKeeps(st: State, p: Parent)
    requires InvBut(st, p)
    ensures Inv(NotifyParent(st, p))
    decreases if p.Of? then p.task else 0, 1
  {
    if Notifies(st, p) {
      HandleBlockingKeeps(st, p.task);
    }
  }

  // ---------- Every step keeps the invariant ----------

  lemma SuspendKeeps(st: State, t: Task)
    requires Inv(st) && t in st && st[t].kind == Running
    ensures Inv(Suspend(st, t))
  {
    var r := st[t];
    var b := r.inTaskwait && MustBlock(r);
    Weaken(st, Of(t));
    if !r.untied {
      Stay(st, t, r.(kind := TiedSuspended, isBlocked := b, susp := Side(b)));
    } else {
      var r1 := r.(kind := Waiting, isBlocked := b, child := if r.parent == NoParent then r.child else Side(b),
                   team := Side(b), susp := Side(b));
      if b {
        Stay(st, t, r1);
      } else {
        Move(st, t, r1);
        SameBump(st[t := r1], r.parent, 0, 1, Queued1(r1) - Queued1(r), Open1(r1) - Open1(r));
        NotifyKeeps(Bump(st[t := r1], r.parent, 0, 1), r.parent);
      }
    }
  }

  lemma SameBump(st: State, p: Parent, dn: int, dw: int, dn': int, dw': int)
    requires p.Of? ==> dn == dn' && dw == dw'
    ensures Bump(st, p, dn, dw) == Bump(st, p, dn', dw')
  {
  }

  /** A task taken from the open side, or a tied task its thread returns to, blocked or not. */
  lemma RunPreKeeps(st: State, t: Task)
    requires Inv(st) && t in st
    requires st[t].kind == TiedSuspended || (st[t].kind == Waiting && !st[t].isBlocked)
    ensures Inv(RunPre(st, t))
  {
    var r := st[t];
    Weaken(st, Of(t));
    if r.kind == TiedSuspended {
      Stay(st, t, r.(kind := Running, susp := Absent));
    } else {
      var r1 := r.(kind := Running, child := if r.parent == NoParent then r.child else AmongRunning,
                   team := Absent, susp := Absent);
      Move(st, t, r1);
      SameBump(st[t := r1], r.parent, 0, -1, Queued1(r1) - Queued1(r), Open1(r1) - Open1(r));
      NotifyKeeps(Bump(st[t := r1], r.parent, 0, -1), r.parent);
    }
  }

  lemma ReleaseKeeps(st: State, t: Task)
    requires Inv(st) && t in st && st[t].kind == Held
    ensures Inv(Release(st, t))
  {
    var p := st[t].parent;
    var r := st[t].(kind := Waiting, child := if p == NoParent then Absent else Schedulable, team := Schedulable);
    Weaken(st, Of(t));
    Move(st, t, r);
    SameBump(st[t := r], p, 1, 1, Queued1(r) - Queued1(st[t]), Open1(r) - Open1(st[t]));
    NotifyKeeps(Bump(st[t := r], p, 1, 1), p);
  }

  lemma SetTaskwaitKeeps(st: State, t: Task, on: bool)
    requires Inv(st) && t in st && st[t].kind == Running
    ensures Inv(SetTaskwait(st, t, on))
  {
    Weaken(st, Of(t));
    Stay(st, t, st[t].(inTaskwait := on));
  }

  lemma OrphanQueued(st: State, t: Task, q: Task)
    requires t in st && q != t
    ensures |QueuedChildren(Orphan(st, t), q)| ==
            |QueuedChildren(st, q)| - if st[t].parent == Of(q) then Queued1(st[t]) else 0
  {
    var n := QueuedChildren(st, q);
    assert QueuedChildren(Orphan(st, t), q) == n - {t};
    assert t in n <==> st[t].parent == Of(q) && st[t].child != Absent;
  }

  lemma OrphanOpen(st: State, t: Task, q: Task)
    requires t in st && q != t
    ensures |OpenChildren(Orphan(st, t), q)| ==
            |OpenChildren(st, q)| - if st[t].parent == Of(q) then Open1(st[t]) else 0
  {
    var w := OpenChildren(st, q);
    assert OpenChildren(Orphan(st, t), q) == w - {t};
    assert t in w <==> st[t].parent == Of(q) && st[t].child == Schedulable;
  }

  lemma LeaveCountAt(st: State, t: Task, q: Task)
    requires t in st && q in st && q != t && PlacesOk(st[t]) && st[t].kind == Running
    requires st[q].numChildren == |QueuedChildren(st, q)| && st[q].numWaiting == |OpenChildren(st, q)|
    ensures var st' := Bump(Orphan(st, t), st[t].parent, -1, 0);
      q in st' && st'[q].numChildren == |QueuedChildren(st', q)| && st'[q].numWaiting == |OpenChildren(st', q)|
  {
    OrphanQueued(st, t, q);
    OrphanOpen(st, t, q);
    BumpChildren(Orphan(st, t), st[t].parent, -1, 0, q);
  }

  lemma LeaveCounts(st: State, t: Task)
    requires CountsOk(st) && t in st && PlacesOk(st[t]) && st[t].kind == Running
    ensures CountsOk(Bump(Orphan(st, t), st[t].parent, -1, 0))
  {
    var st' := Bump(Orphan(st, t), st[t].parent, -1, 0);
    assert st'.Keys == st.Keys - {t};
    forall q | q in st'
      ensures st'[q].numChildren == |QueuedChildren(st', q)| && st'[q].numWaiting == |OpenChildren(st', q)|
    {
      LeaveCountAt(st, t, q);
    }
  }

  lemma OrphanRecOk(r: Rec, t: Task)
    requires PlacesOk(r) && Loose(r) && Tight(r)
    ensures PlacesOk(OrphanRec(r, t)) && Loose(OrphanRec(r, t)) && Tight(OrphanRec(r, t))
  {
  }

  /** Only the departure of the last child can change what the parent must do. */
  lemma DepartureRecOk(r: Rec)
    requires PlacesOk(r) && Loose(r) && Tight(r)
    ensures PlacesOk(BumpRec(r, -1, 0)) && Loose(BumpRec(r, -1, 0)) && (r.numChildren > 1 ==> Tight(BumpRec(r, -1, 0)))
  {
  }

  lemma LeaveAt(st: State, t: Task, x: Task)
    requires t in st && x in st && x != t && PlacesOk(st[x]) && Loose(st[x]) && Tight(st[x])
    ensures var st' := Bump(Orphan(st, t), st[t].parent, -1, 0);
      && x in st' && PlacesOk(st'[x]) && Loose(st'[x])
      && (Of(x) != st[t].parent || st'[x].numChildren > 0 ==> Tight(st'[x]))
      && st'[x].parent == (if st[x].parent == Of(t) then NoParent else st[x].parent)
  {
    OrphanRecOk(st[x], t);
    DepartureRecOk(OrphanRec(st[x], t));
  }

  lemma LeaveParents(st: State, t: Task)
    requires ParentsOk(st) && t in st && forall x :: x in st ==> PlacesOk(st[x]) && Loose(st[x]) && Tight(st[x])
    ensures var st' := Bump(Orphan(st, t), st[t].parent, -1, 0); st'.Keys == st.Keys - {t} && ParentsOk(st')
  {
    var st' := Bump(Orphan(st, t), st[t].parent, -1, 0);
    assert st'.Keys == st.Keys - {t};
    forall x | x in st' ensures st'[x].parent.Of? ==> st'[x].parent.task < x && st'[x].parent.task in st' {
      LeaveAt(st, t, x);
    }
  }

  lemma LeaveRest(st: State, t: Task)
    requires Inv(st) && t in st
    ensures var st' := Bump(Orphan(st, t), st[t].parent, -1, 0);
      && ParentsOk(st')
      && (forall x :: x in st' ==> PlacesOk(st'[x]) && Loose(st'[x]))
      && (forall x :: x in st' && (Of(x) != st[t].parent || st'[x].numChildren > 0) ==> Tight(st'[x]))
  {
    var p := st[t].parent;
    var st' := Bump(Orphan(st, t), p, -1, 0);
    LeaveParents(st, t);
    forall x | x in st'
      ensures PlacesOk(st'[x]) && Loose(st'[x]) && (Of(x) != p || st'[x].numChildren > 0 ==> Tight(st'[x]))
    {
      LeaveAt(st, t, x);
    }
  }

  lemma LeaveInv(st: State, t: Task)
    requires Inv(st) && t in st && st[t].kind == Running
    ensures var st' := Bump(Orphan(st, t), st[t].parent, -1, 0);
      && InvBut(st', st[t].parent)
      && (st[t].parent.Of? && st[t].parent.task in st' && st'[st[t].parent.task].numChildren > 0 ==> Inv(st'))
  {
    LeaveCounts(st, t);
    LeaveRest(st, t);
  }

  lemma TerminateKeeps(st: State, t: Task)
    requires Inv(st) && t in st && st[t].kind == Running
    ensures Inv(Terminate(st, t))
  {
    var p := st[t].parent;
    var st' := Bump(Orphan(st, t), p, -1, 0);
    LeaveInv(st, t);
    if p.Of? && p.task in st' && st'[p.task].numChildren == 0 {
      NotifyKeeps(st', p);
    } else if p.Of? {
      assert st'[p.task].numChildren == |QueuedChildren(st', p.task)|;
    }
  }

  lemma NewQueued(st: State, id: Task, c: Rec, q: Task)
    requires id !in st
    ensures |QueuedChildren(st[id := c], q)| == |QueuedChildren(st, q)| + if c.parent == Of(q) then Queued1(c) else 0
  {
    var n := QueuedChildren(st, q);
    assert id !in n;
    assert QueuedChildren(st[id := c], q) == if c.parent == Of(q) && c.child != Absent then n + {id} else n;
  }

  lemma NewOpen(st: State, id: Task, c: Rec, q: Task)
    requires id !in st
    ensures |OpenChildren(st[id := c], q)| == |OpenChildren(st, q)| + if c.parent == Of(q) then Open1(c) else 0
  {
    var w := OpenChildren(st, q);
    assert id !in w;
    assert OpenChildren(st[id := c], q) == if c.parent == Of(q) && c.child == Schedulable then w + {id} else w;
  }

  lemma CreateChildren(st: State, p: Task, id: Task, untied: bool, held: bool, q: Task)
    requires p in st && id !in st && q in st
    ensures |QueuedChildren(Create(st, p, id, untied, held), q)| ==
            |QueuedChildren(st, q)| + if q == p && !held then 1 else 0
    ensures |OpenChildren(Create(st, p, id, untied, held), q)| ==
            |OpenChildren(st, q)| + if q == p && !held then 1 else 0
  {
    var n := if held then 0 else 1;
    BumpChildren(st, Of(p), n, n, q);
    NewQueued(Bump(st, Of(p), n, n), id, Create(st, p, id, untied, held)[id], q);
    NewOpen(Bump(st, Of(p), n, n), id, Create(st, p, id, untied, held)[id], q);
  }

  lemma CreateCounts(st: State, p: Task, id: Task, untied: bool, held: bool)
    requires ParentsOk(st) && CountsOk(st) && p in st && p < id && id !in st
    ensures CountsOk(Create(st, p, id, untied, held))
  {
    var st' := Create(st, p, id, untied, held);
    forall q | q in st'
      ensures st'[q].numChildren == |QueuedChildren(st', q)| && st'[q].numWaiting == |OpenChildren(st', q)|
    {
      if q == id {
        NoChildrenYet(st, p, id, untied, held);
      } else {
        CreateChildren(st, p, id, untied, held, q);
      }
    }
  }

  lemma CreateRest(st: State, p: Task, id: Task, untied: bool, held: bool, x: Task)
    requires p in st && st[p].kind == Running && id !in st && (x == id || x in st)
    requires forall y :: y in st ==> PlacesOk(st[y]) && Loose(st[y]) && Tight(st[y])
    ensures var r := Create(st, p, id, untied, held)[x]; PlacesOk(r) && Loose(r) && Tight(r)
  {
    if x != id { assert PlacesOk(st[x]) && Loose(st[x]) && Tight(st[x]); }
  }

  lemma CreateKeeps(st: State, p: Task, id: Task, untied: bool, held: bool)
    requires Inv(st) && p in st && st[p].kind == Running && p < id && id !in st
    ensures Inv(Create(st, p, id, untied, held))
  {
    var st' := Create(st, p, id, untied, held);
    CreateCounts(st, p, id, untied, held);
    assert forall y :: y in st ==> Of(y) != NoParent;
    forall x | x in st'
      ensures PlacesOk(st'[x]) && Loose(st'[x]) && Tight(st'[x])
    {
      CreateRest(st, p, id, untied, held, x);
    }
  }

  lemma NoChildrenYet(st: State, p: Task, id: Task, untied: bool, held: bool)
    requires ParentsOk(st) && p in st && p != id && id !in st
    ensures QueuedChildren(Create(st, p, id, untied, held), id) == {}
    ensures OpenChildren(Create(st, p, id, untied, held), id) == {}
  {
  }

  // ---------- Whole runs ----------

  datatype Op =
    | SuspendOp(t: Task)
    | RunOp(t: Task)
    | TerminateOp(t: Task)
    | CreateOp(t: Task, id: Task, untied: bool, held: bool)
    | ReleaseOp(t: Task)
    | TaskwaitOp(t: Task, on: bool)

  /** What the runtime guarantees when it takes the step: who runs, which side a task was taken from,
      and that a parent outlives its held children. */
  predicate Enabled(st: State, op: Op) {
    && op.t in st
    && match op
       case SuspendOp(t) => st[t].kind == Running
       case RunOp(t) => st[t].kind == TiedSuspended || (st[t].kind == Waiting && !st[t].isBlocked)
       case TerminateOp(t) =>
         st[t].kind == Running && forall c :: c in st && st[c].parent == Of(t) ==> st[c].kind != Held
       case CreateOp(t, id, _, _) => st[t].kind == Running && t < id && id !in st
       case ReleaseOp(t) => st[t].kind == Held
       case TaskwaitOp(t, _) => st[t].kind == Running
  }

  function Apply(st: State, op: Op): State
    requires Acyclic(st) && Enabled(st, op)
  {
    match op
    case SuspendOp(t) => Suspend(st, t)
    case RunOp(t) => RunPre(st, t)
    case TerminateOp(t) => Terminate(st, t)
    case CreateOp(t, id, untied, held) => Create(st, t, id, untied, held)
    case ReleaseOp(t) => Release(st, t)
    case TaskwaitOp(t, on) => SetTaskwait(st, t, on)
  }

  ghost predicate Run(sts: seq<State>, ops: seq<Op>) {
    && |sts| == |ops| + 1
    && forall i :: 0 <= i < |ops| ==>
         Acyclic(sts[i]) && Enabled(sts[i], ops[i]) && sts[i + 1] == Apply(sts[i], ops[i])
  }

  lemma StepKeeps(st: State, op: Op)
    requires Inv(st) && Enabled(st, op)
    ensures Inv(Apply(st, op))
  {
    match op {
      case SuspendOp(t) => SuspendKeeps(st, t);
      case RunOp(t) => RunPreKeeps(st, t);
      case TerminateOp(t) => TerminateKeeps(st, t);
      case CreateOp(t, id, untied, held) => CreateKeeps(st, t, id, untied, held);
      case ReleaseOp(t) => ReleaseKeeps(st, t);
      case TaskwaitOp(t, on) => SetTaskwaitKeeps(st, t, on);
    }
  }

  lemma {:induction false} RunKeeps(sts: seq<State>, ops: seq<Op>, i: nat)
    requires Run(sts, ops) && Inv(sts[0]) && i < |sts|
    ensures Inv(sts[i])
  {
    if i > 0 {
      RunKeeps(sts, ops, i - 1);
      StepKeeps(sts[i - 1], ops[i - 1]);
    }
  }

  /** The implicit tasks of a team, all running and without children. */
  predicate Fresh(st: State) {
    forall t :: t in st ==> st[t] == Rec(false, st[t].untiedBlock, NoParent, Running, false, false, Absent, Absent, Absent, 0, 0)
  }

  lemma FreshInv(st: State)
    requires Fresh(st)
    ensures Inv(st)
  {
    forall p | p in st
      ensures QueuedChildren(st, p) == {} && OpenChildren(st, p) == {}
    {
    }
  }

  /** In every state of every run: a task suspended in taskwait is flagged blocked exactly when its
      children-count condition holds, and its flag is the side it occupies in every queue it is in. */
  lemma NoLostUnblock(sts: seq<State>, ops: seq<Op>, i: nat, t: Task)
    requires Run(sts, ops) && Fresh(sts[0]) && i < |sts| && t in sts[i]
    ensures PlacesOk(sts[i][t]) && Tight(sts[i][t])
    ensures sts[i][t].numChildren == |QueuedChildren(sts[i], t)| && sts[i][t].numWaiting == |OpenChildren(sts[i], t)|
    ensures Suspended(sts[i][t]) && QueuedChildren(sts[i], t) == {} ==> !sts[i][t].isBlocked
  {
    FreshInv(sts[0]);
    RunKeeps(sts, ops, i);
  }

  // ---------- What the steps do ----------

  /** What is said about a task; its flag, its places and its counters follow.  `stacked`: it is in the
      suspended queue of a thread; `stale`: it runs with the flag it was resumed with. */
  datatype Profile = Profile(untied: bool, untiedBlock: bool, parent: Parent, kind: Kind, inTaskwait: bool, stacked: bool, stale: bool)

  function ProfileOf(r: Rec): Profile {
    Profile(r.untied, r.untiedBlock, r.parent, r.kind, r.inTaskwait, r.susp != Absent, r.kind == Running && r.isBlocked)
  }

  function Profiles(st: State): map<Task, Profile> {
    map t | t in st :: ProfileOf(st[t])
  }

  /** What a step says: a suspended task is TiedSuspended or Waiting and in a suspended queue, a started one
      runs, a released one waits, the children of a terminated one have no parent. */
  function Said(st: State, op: Op): map<Task, Profile>
    requires Enabled(st, op)
  {
    var old', t := Profiles(st), op.t;
    var r := old'[t];
    match op
    case SuspendOp(_) => old'[t := r.(kind := if r.untied then Waiting else TiedSuspended, stacked := true, stale := false)]
    case RunOp(_) => old'[t := r.(kind := Running, stacked := false, stale := st[t].isBlocked)]
    case TerminateOp(_) => map c | c in old' && c != t :: if old'[c].parent == Of(t) then old'[c].(parent := NoParent) else old'[c]
    case CreateOp(_, id, untied, held) =>
      old'[id := Profile(untied, r.untiedBlock, Of(t), if held then Held else Waiting, false, false, false)]
    case ReleaseOp(_) => old'[t := r.(kind := Waiting)]
    case TaskwaitOp(_, on) => old'[t := r.(inTaskwait := on)]
  }

  /** Flag and places follow from what is said about a task and from its counters. */
  lemma RecDetermined(r: Rec, r': Rec)
    requires PlacesOk(r) && Loose(r) && Tight(r) && PlacesOk(r') && Loose(r') && Tight(r')
    requires ProfileOf(r) == ProfileOf(r') && r.numChildren == r'.numChildren && r.numWaiting == r'.numWaiting
    ensures r == r'
  {
  }

  lemma {:induction false} DeterminedFrom(st: State, st': State, t: Task, bound: nat)
    requires Inv(st) && Inv(st') && Profiles(st) == Profiles(st') && forall x :: x in st ==> x < bound
    requires t in st
    ensures t in st' && st[t] == st'[t]
    decreases bound - t
  {
    assert t in Profiles(st) && t in Profiles(st');
    forall c | c in st && st[c].parent == Of(t) ensures c in st' && st[c] == st'[c] {
      DeterminedFrom(st, st', c, bound);
    }
    forall c | c in st' && st'[c].parent == Of(t) ensures c in st && st[c].parent == Of(t) {
      assert c in Profiles(st') && Profiles(st')[c] == Profiles(st)[c];
    }
    assert QueuedChildren(st, t) == QueuedChildren(st', t) && OpenChildren(st, t) == OpenChildren(st', t);
    assert Profiles(st)[t] == Profiles(st')[t];
    assert Of(t) != NoParent;
    RecDetermined(st[t], st'[t]);
  }

  lemma Bounded(s: set<Task>) returns (bound: nat)
    ensures forall x :: x in s ==> x < bound
  {
    if s == {} {
      bound := 0;
    } else {
      var x :| x in s;
      var b := Bounded(s - {x});
      bound := if x < b then b else x + 1;
      forall y | y in s ensures y < bound { assert y == x || y in s - {x}; }
    }
  }

  lemma KeysOf(st: State)
    ensures Profiles(st).Keys == st.Keys
  {
  }

  lemma SameStates(st: State, st': State)
    requires st.Keys == st'.Keys && forall t :: t in st ==> st[t] == st'[t]
    ensures st == st'
  {
  }

  /** There is one state in which all flags, places and counters agree. */
  lemma Determined(st: State, st': State)
    requires Inv(st) && Inv(st') && Profiles(st) == Profiles(st')
    ensures st == st'
  {
    KeysOf(st);
    KeysOf(st');
    DeterminedAll(st, st', st.Keys);
    SameStates(st, st');
  }

  lemma {:induction false} DeterminedAll(st: State, st': State, s: set<Task>)
    requires Inv(st) && Inv(st') && Profiles(st) == Profiles(st') && s <= st.Keys
    ensures forall t :: t in s ==> t in st' && st[t] == st'[t]
  {
    var bound := Bounded(st.Keys);
    forall t | t in s ensures t in st' && st[t] == st'[t] { DeterminedFrom(st, st', t, bound); }
  }

  lemma BumpProfiles(st: State, p: Parent, dn: int, dw: int)
    ensures Profiles(Bump(st, p, dn, dw)) == Profiles(st)
  {
  }

  lemma FlipProfile(r: Rec, blocked: bool)
    requires r.kind != Running
    ensures ProfileOf(Flip(r, blocked)) == ProfileOf(r)
  {
  }

  /** The cascade changes flags, sides and counters only. */
  lemma {:induction false} HandleBlockingProfiles(st: State, t: Task)
    requires Acyclic(st)
    ensures Profiles(HandleBlocking(st, t)) == Profiles(st)
    decreases t
  {
    if t in st && Suspended(st[t]) {
      var r := st[t];
      FlipProfile(r, MustBlock(r));
      var st0 := st[t := Flip(r, MustBlock(r))];
      assert Profiles(st0) == Profiles(st);
      if r.untied && r.kind == Waiting && r.isBlocked != MustBlock(r) {
        var st1 := Bump(st0, r.parent, 0, if MustBlock(r) then -1 else 1);
        BumpProfiles(st0, r.parent, 0, if MustBlock(r) then -1 else 1);
        if Notifies(st1, r.parent) { HandleBlockingProfiles(st1, r.parent.task); }
      }
    }
  }

  lemma NotifyProfiles(st: State, p: Parent)
    requires Acyclic(st)
    ensures Profiles(NotifyParent(st, p)) == Profiles(st)
  {
    if Notifies(st, p) { HandleBlockingProfiles(st, p.task); }
  }

  lemma PutProfile(st: State, t: Task, r: Rec)
    ensures Profiles(st[t := r]) == Profiles(st)[t := ProfileOf(r)]
  {
  }

  /** A task that changes its own record and tells its parent. */
  lemma ToldProfiles(st: State, t: Task, r: Rec, dn: int, dw: int)
    requires Acyclic(st) && t in st && r.parent == st[t].parent
    ensures Acyclic(Bump(st[t := r], r.parent, dn, dw))
    ensures Profiles(NotifyParent(Bump(st[t := r], r.parent, dn, dw), r.parent)) == Profiles(st)[t := ProfileOf(r)]
  {
    PutProfile(st, t, r);
    BumpProfiles(st[t := r], r.parent, dn, dw);
    NotifyProfiles(Bump(st[t := r], r.parent, dn, dw), r.parent);
  }

  lemma SuspendProfiles(st: State, t: Task)
    requires Inv(st) && t in st && st[t].kind == Running
    ensures Profiles(Suspend(st, t)) == Said(st, SuspendOp(t))
  {
    var r := st[t];
    var b := r.inTaskwait && MustBlock(r);
    if !r.untied {
      PutProfile(st, t, r.(kind := TiedSuspended, isBlocked := b, susp := Side(b)));
    } else {
      var r1 := r.(kind := Waiting, isBlocked := b, child := if r.parent == NoParent then r.child else Side(b),
                   team := Side(b), susp := Side(b));
      PutProfile(st, t, r1);
      ToldProfiles(st, t, r1, 0, 1);
    }
  }

  lemma RunPreProfiles(st: State, t: Task)
    requires Inv(st) && t in st && (st[t].kind == TiedSuspended || (st[t].kind == Waiting && !st[t].isBlocked))
    ensures Profiles(RunPre(st, t)) == Said(st, RunOp(t))
  {
    var r := st[t];
    if r.kind == TiedSuspended {
      PutProfile(st, t, r.(kind := Running, susp := Absent));
    } else {
      ToldProfiles(st, t, r.(kind := Running, child := if r.parent == NoParent then r.child else AmongRunning,
                             team := Absent, susp := Absent), 0, -1);
    }
  }

  lemma ReleaseProfiles(st: State, t: Task)
    requires Acyclic(st) && t in st && st[t].kind == Held && PlacesOk(st[t])
    ensures Profiles(Release(st, t)) == Said(st, ReleaseOp(t))
  {
    var p := st[t].parent;
    var r := st[t].(kind := Waiting, child := if p == NoParent then Absent else Schedulable, team := Schedulable);
    HeldProfile(st[t], r);
    ToldProfiles(st, t, r, 1, 1);
    ReleaseForm(st, t, r, p);
  }

  lemma ReleaseForm(st: State, t: Task, r: Rec, p: Parent)
    requires Acyclic(st) && t in st && p == st[t].parent
    requires r == st[t].(kind := Waiting, child := if p == NoParent then Absent else Schedulable, team := Schedulable)
    ensures Acyclic(Bump(st[t := r], p, 1, 1)) && Release(st, t) == NotifyParent(Bump(st[t := r], p, 1, 1), p)
  {
  }

  lemma HeldProfile(r: Rec, r': Rec)
    requires PlacesOk(r) && r.kind == Held && r' == r.(kind := Waiting, child := r'.child, team := r'.team)
    ensures ProfileOf(r') == ProfileOf(r).(kind := Waiting)
  {
  }

  lemma TerminateProfiles(st: State, t: Task)
    requires Inv(st) && Enabled(st, TerminateOp(t))
    ensures Profiles(Terminate(st, t)) == Said(st, TerminateOp(t))
  {
    var p := st[t].parent;
    BumpProfiles(Orphan(st, t), p, -1, 0);
    LeaveParents(st, t);
    NotifyProfiles(Bump(Orphan(st, t), p, -1, 0), p);
    OrphanProfiles(st, t);
  }

  lemma OrphanProfiles(st: State, t: Task)
    requires Enabled(st, TerminateOp(t)) && forall c :: c in st ==> PlacesOk(st[c])
    ensures Profiles(Orphan(st, t)) == Said(st, TerminateOp(t))
  {
    var a, b := Profiles(Orphan(st, t)), Said(st, TerminateOp(t));
    assert a.Keys == st.Keys - {t} == b.Keys;
    forall c | c in a ensures a[c] == b[c] {
      assert a[c] == ProfileOf(OrphanRec(st[c], t));
    }
  }

  lemma CreateProfiles(st: State, t: Task, id: Task, untied: bool, held: bool)
    requires Inv(st) && Enabled(st, CreateOp(t, id, untied, held))
    ensures Profiles(Create(st, t, id, untied, held)) == Said(st, CreateOp(t, id, untied, held))
  {
    var place, n := if held then Absent else Schedulable, if held then 0 else 1;
    var c := Rec(untied, st[t].untiedBlock, Of(t), if held then Held else Waiting, false, false, place, place, Absent, 0, 0);
    BumpProfiles(st, Of(t), n, n);
    PutProfile(Bump(st, Of(t), n, n), id, c);
  }

  lemma ApplyProfiles(st: State, op: Op)
    requires Inv(st) && Enabled(st, op)
    ensures Profiles(Apply(st, op)) == Said(st, op)
  {
    match op {
      case SuspendOp(t) => SuspendProfiles(st, t);
      case RunOp(t) => RunPreProfiles(st, t);
      case TerminateOp(t) => TerminateProfiles(st, t);
      case CreateOp(t, id, untied, held) => CreateProfiles(st, t, id, untied, held);
      case ReleaseOp(t) => ReleaseProfiles(st, t);
      case TaskwaitOp(t, on) => PutProfile(st, t, st[t].(inTaskwait := on));
    }
  }

  /** Every step is exact: its result is the one state in which what the step says holds and all flags,
      places and counters agree. */
  lemma StepExact(st: State, op: Op, st': State)
    requires Inv(st) && Enabled(st, op)
    ensures st' == Apply(st, op) <==> Inv(st') && Profiles(st') == Said(st, op)
  {
    StepKeeps(st, op);
    ApplyProfiles(st, op);
    if Inv(st') && Profiles(st') == Said(st, op) { Determined(st', Apply(st, op)); }
  }

  // ---------- What a suspension does, and what it leaves alone ----------

  /** `x` is reached from `t` along parent pointers. */
  predicate Above(st: State, x: Task, t: Task)
    requires Acyclic(st)
    decreases t
  {
    t in st && st[t].parent.Of? && (st[t].parent.task == x || Above(st, x, st[t].parent.task))
  }

  /** `r'` is `r` with another number of open children. */
  predicate SameButWaiting(r: Rec, r': Rec) {
    r' == r.(numWaiting := r'.numWaiting)
  }

  lemma {:induction false} AboveSame(st: State, st': State, x: Task, t: Task)
    requires Acyclic(st) && Acyclic(st') && st.Keys == st'.Keys && forall y :: y in st ==> st'[y].parent == st[y].parent
    ensures Above(st, x, t) <==> Above(st', x, t)
    decreases t
  {
    if t in st && st[t].parent.Of? { AboveSame(st, st', x, st[t].parent.task); }
  }

  /** The change from `st` to `st'` reaches `x` only if that is `t` or above it, and more than its number of
      open children only if it is `t` or waits in taskwait. */
  predicate Reach(st: State, st': State, t: Task, x: Task)
    requires Acyclic(st) && x in st
  {
    && x in st' && st'[x].parent == st[x].parent && st'[x].inTaskwait == st[x].inTaskwait
    && (x != t && !Above(st, x, t) ==> st'[x] == st[x])
    && (x != t && !st[x].inTaskwait ==> SameButWaiting(st[x], st'[x]))
  }

  lemma BumpReach(st: State, t: Task, p: Task, dw: int, x: Task)
    requires Acyclic(st) && t in st && st[t].parent == Of(p) && x in st
    ensures Reach(st, Bump(st, Of(p), 0, dw), t, x)
  {
  }

  lemma ReachThen(st: State, st1: State, st2: State, t: Task, p: Task, x: Task)
    requires Acyclic(st) && Acyclic(st1) && st.Keys == st1.Keys && x in st && t in st && st[t].parent == Of(p)
    requires forall y :: y in st ==> st1[y].parent == st[y].parent
    requires Reach(st, st1, t, x) && Reach(st1, st2, p, x)
    requires x == p ==> st[p].inTaskwait
    ensures Reach(st, st2, t, x)
  {
    AboveSame(st, st1, x, p);
  }

  lemma {:induction false} HandleBlockingReach(st: State, t: Task, x: Task)
    requires Acyclic(st) && t in st && x in st
    ensures HandleBlocking(st, t).Keys == st.Keys && Reach(st, HandleBlocking(st, t), t, x)
    decreases t
  {
    var r := st[t];
    if r.untied && r.kind == Waiting && r.isBlocked != MustBlock(r) {
      var st0 := st[t := Flip(r, MustBlock(r))];
      NotifyReach(st, st0, t, if MustBlock(r) then -1 else 1, x);
    }
  }

  /** `t` has changed its record; its parent counts and, if it waits in taskwait, follows. */
  lemma {:induction false} NotifyReach(st: State, st0: State, t: Task, dw: int, x: Task)
    requires Acyclic(st) && t in st && x in st && st0.Keys == st.Keys && st0 == st[t := st0[t]]
    requires st0[t].parent == st[t].parent && st0[t].inTaskwait == st[t].inTaskwait
    ensures Acyclic(Bump(st0, st[t].parent, 0, dw))
    ensures var st' := NotifyParent(Bump(st0, st[t].parent, 0, dw), st[t].parent);
      st'.Keys == st.Keys && Reach(st, st', t, x)
    decreases t, 0
  {
    var q := st[t].parent;
    var st1 := Bump(st0, q, 0, dw);
    if Notifies(st1, q) {
      HandleBlockingReach(st1, q.task, x);
      ReachThen(st, st1, HandleBlocking(st1, q.task), t, q.task, x);
    }
  }

  lemma {:induction false} AboveLess(st: State, x: Task, t: Task)
    requires Acyclic(st) && Above(st, x, t)
    ensures x < t
    decreases t
  {
    if st[t].parent.task != x { AboveLess(st, x, st[t].parent.task); }
  }

  /** A task is not above its parent, so it stays as it is when that is notified. */
  lemma NotifyBelow(st1: State, t: Task, p: Parent)
    requires Acyclic(st1) && t in st1 && st1[t].parent == p
    ensures var st' := NotifyParent(st1, p); t in st' && st'[t] == st1[t]
  {
    if Notifies(st1, p) {
      HandleBlockingReach(st1, p.task, t);
      if Above(st1, t, p.task) { AboveLess(st1, t, p.task); }
    }
  }

  /** Nor do the counters of the task that is looked at change. */
  lemma HandleBlockingOwn(st: State, t: Task)
    requires Acyclic(st) && t in st
    ensures var st' := HandleBlocking(st, t);
      t in st' && st'[t].numChildren == st[t].numChildren && st'[t].numWaiting == st[t].numWaiting
  {
    var r := st[t];
    if r.untied && r.kind == Waiting && r.isBlocked != MustBlock(r) {
      var st1 := Bump(st[t := Flip(r, MustBlock(r))], r.parent, 0, if MustBlock(r) then -1 else 1);
      NotifyBelow(st1, t, r.parent);
    }
  }

  lemma NotifyOwn(st: State, p: Task)
    requires Acyclic(st) && p in st
    ensures var st' := NotifyParent(st, Of(p));
      p in st' && st'[p].numChildren == st[p].numChildren && st'[p].numWaiting == st[p].numWaiting
  {
    if Notifies(st, Of(p)) { HandleBlockingOwn(st, p); }
  }

  /** What an untied task becomes. */
  function Waits(r: Rec): Rec {
    var b := r.inTaskwait && MustBlock(r);
    r.(kind := Waiting, isBlocked := b, child := if r.parent == NoParent then r.child else Side(b), team := Side(b), susp := Side(b))
  }

  lemma PutAcyclic(st: State, t: Task, r: Rec, dn: int, dw: int)
    requires Acyclic(st) && t in st && r.parent == st[t].parent
    ensures Acyclic(Bump(st[t := r], r.parent, dn, dw))
    ensures var st1 := Bump(st[t := r], r.parent, dn, dw); t in st1 && st1[t] == r && st1.Keys == st.Keys
  {
  }

  lemma SuspendForm(st: State, t: Task)
    requires Acyclic(st) && t in st && st[t].untied
    ensures Acyclic(Bump(st[t := Waits(st[t])], st[t].parent, 0, 1))
    ensures Suspend(st, t) ==
            if st[t].inTaskwait && MustBlock(st[t]) then st[t := Waits(st[t])]
            else NotifyParent(Bump(st[t := Waits(st[t])], st[t].parent, 0, 1), st[t].parent)
  {
    PutAcyclic(st, t, Waits(st[t]), 0, 1);
  }

  lemma SuspendReach(st: State, t: Task, x: Task)
    requires Acyclic(st) && t in st && x in st
    ensures Suspend(st, t).Keys == st.Keys && Reach(st, Suspend(st, t), t, x)
  {
    if st[t].untied {
      SuspendForm(st, t);
      NotifyReach(st, st[t := Waits(st[t])], t, 1, x);
    }
  }

  lemma SuspendOwn(st: State, t: Task)
    requires Acyclic(st) && t in st
    ensures var st', r := Suspend(st, t), st[t];
      var b := r.inTaskwait && MustBlock(r);
      t in st' && st'[t] == if r.untied then Waits(r) else r.(kind := TiedSuspended, isBlocked := b, susp := Side(b))
  {
    if st[t].untied {
      SuspendForm(st, t);
      PutAcyclic(st, t, Waits(st[t]), 0, 1);
      NotifyBelow(Bump(st[t := Waits(st[t])], st[t].parent, 0, 1), t, st[t].parent);
    }
  }

  lemma CountBump(st: State, t: Task, r: Rec, p: Task, dn: int, dw: int)
    requires Acyclic(st) && t in st && p in st && r.parent == st[t].parent == Of(p)
    ensures var st1 := Bump(st[t := r], Of(p), dn, dw);
      && p in st1 && st1[p].numChildren == st[p].numChildren + dn && st1[p].numWaiting == st[p].numWaiting + dw
  {
  }

  lemma SuspendCounts(st: State, t: Task, p: Task)
    requires Acyclic(st) && t in st && p in st && st[t].parent == Of(p)
    ensures var st', r := Suspend(st, t), st[t];
      && p in st' && st'[p].numChildren == st[p].numChildren
      && st'[p].numWaiting == st[p].numWaiting + if r.untied && !(r.inTaskwait && MustBlock(r)) then 1 else 0
  {
    if st[t].untied {
      SuspendForm(st, t);
      PutAcyclic(st, t, Waits(st[t]), 0, 1);
      CountBump(st, t, Waits(st[t]), p, 0, 1);
      NotifyOwn(Bump(st[t := Waits(st[t])], Of(p), 0, 1), p);
    }
  }

  /** Suspending `t`: a tied task is TiedSuspended and an untied one Waiting; it is blocked exactly if it is in
      taskwait and its children demand it, and it stands on that side of the suspended queue and, if untied, of
      the other two; nobody but the tasks above it changes, and of those one that is not in taskwait only in its
      number of open children. */
  lemma SuspendEffect(st: State, t: Task)
    requires Inv(st) && t in st && st[t].kind == Running
    ensures var st', r := Suspend(st, t), st[t];
      && st'.Keys == st.Keys && var r' := st'[t];
      && r'.kind == (if r.untied then Waiting else TiedSuspended)
      && r'.isBlocked == (r.inTaskwait && MustBlock(r)) && r'.susp == Side(r'.isBlocked)
      && (r.untied ==> r'.team == Side(r'.isBlocked) && (r.parent.Of? ==> r'.child == Side(r'.isBlocked)))
      && (!r.untied ==> r'.team == r.team && r'.child == r.child)
      && ProfileOf(r').(kind := r.kind, stacked := false, stale := r.isBlocked) == ProfileOf(r)
      && r'.numChildren == r.numChildren && r'.numWaiting == r.numWaiting
    ensures forall x :: x in st && x != t ==> Reach(st, Suspend(st, t), t, x)
    ensures st[t].parent.Of? ==>
      var p, st' := st[t].parent.task, Suspend(st, t);
      && p in st && st'[p].numChildren == st[p].numChildren
      && st'[p].numWaiting == st[p].numWaiting + if st[t].untied && !st'[t].isBlocked then 1 else 0
  {
    forall x | x in st ensures Suspend(st, t).Keys == st.Keys && Reach(st, Suspend(st, t), t, x) { SuspendReach(st, t, x); }
    SuspendOwn(st, t);
    if st[t].parent.Of? { SuspendCounts(st, t, st[t].parent.task); }
  }

  // ---------- The task records, updated in place ----------

  class Team {
    var tasks: State

    /** gomp_task_handle_blocking. */
    method HandleTaskBlocking(t: Task)
      requires Acyclic(tasks)
      modifies this
      ensures tasks == HandleBlocking(old(tasks), t)
      decreases t
    {
      if t !in tasks {
        return;
      }
      var r := tasks[t];
      if !r.untied {
        if r.kind == TiedSuspended && r.isBlocked != MustBlock(r) {
          tasks := tasks[t := Flip(r, MustBlock(r))];
        }
      } else if r.kind == Waiting && r.isBlocked != MustBlock(r) {
        tasks := tasks[t := Flip(r, MustBlock(r))];
        CountWaiting(r.parent, if MustBlock(r) then -1 else 1);
        if Notifies(tasks, r.parent) {
          HandleTaskBlocking(r.parent.task);
        }
      }
    }

    method CountWaiting(p: Parent, d: int)
      modifies this
      ensures tasks == Bump(old(tasks), p, 0, d)
    {
      if p.Of? && p.task in tasks {
        var q := tasks[p.task];
        tasks := tasks[p.task := q.(numChildren := q.numChildren + 0, numWaiting := q.numWaiting + d)];
      }
    }

    /** The queue part of gomp_suspend_tied_task_for_successor and gomp_suspend_untied_task_for_successor. */
    method SuspendTask(t: Task)
      requires Acyclic(tasks) && t in tasks
      modifies this
      ensures tasks == Suspend(old(tasks), t)
    {
      var r := tasks[t];
      var b := r.inTaskwait && MustBlock(r);
      if !r.untied {
        tasks := tasks[t := r.(kind := TiedSuspended, isBlocked := b, susp := Side(b))];
      } else {
        tasks := tasks[t := r.(kind := Waiting, isBlocked := b, team := Side(b), susp := Side(b),
                               child := if r.parent == NoParent then r.child else Side(b))];
        if !b {
          CountWaiting(r.parent, 1);
          if Notifies(tasks, r.parent) {
            HandleTaskBlocking(r.parent.task);
          }
        }
      }
    }

    /** The queue part of gomp_task_run_pre. */
    method StartTask(t: Task)
      requires Acyclic(tasks) && t in tasks
      modifies this
      ensures tasks == RunPre(old(tasks), t)
    {
      var r := tasks[t];
      if r.kind == TiedSuspended {
        tasks := tasks[t := r.(kind := Running, susp := Absent)];
      } else {
        tasks := tasks[t := r.(kind := Running, team := Absent, susp := Absent,
                               child := if r.parent == NoParent then r.child else AmongRunning)];
        CountWaiting(r.parent, -1);
        if Notifies(tasks, r.parent) {
          HandleTaskBlocking(r.parent.task);
        }
      }
    }
  }
}
