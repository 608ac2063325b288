/** Priority queues of tasks (priority_queue.h, priority_queue.c, task.h, task.c): one list while every
    priority is 0, afterwards a splay tree of lists with a cached highest schedulable priority. */
module PriorityQueue {
  import opened PriorityList
  import ST = SplayTree
  import Hp = HpTree

  /** task->kind of a task that is in the queue and not blocked; Executing is every kind of running task. */
  datatype TaskKind = Waiting | TiedSuspended | Executing

  /** Queues of tied and of untied children or taskgroup members hold running tasks as well; the team's and
      the threads' queues do not. */
  datatype Role = TiedChildren | UntiedChildren | Pool

  datatype Entry = Entry(priority: int, kind: Kind)

  type Tasks = map<Node, Entry>
  type KindOf = Node -> TaskKind

  predicate Schedulable(kind: Kind) {
    kind == Awaited || kind == Plain
  }

  predicate Ready(tasks: Tasks, x: Node) {
    x in tasks && Schedulable(tasks[x].kind)
  }

  ghost predicate HasReady(tasks: Tasks, p: int) {
    exists x :: Ready(tasks, x) && tasks[x].priority == p
  }

  function KindsOf(tasks: Tasks, p: int): Kinds {
    map x | x in tasks && tasks[x].priority == p :: tasks[x].kind
  }

  predicate Agrees(role: Role, kind: Kind, taskKind: TaskKind) {
    match role
    case Pool => Schedulable(kind) && taskKind != Executing
    case TiedChildren => Schedulable(kind) <==> taskKind == Waiting
    case UntiedChildren => taskKind == if Schedulable(kind) then Waiting else Executing
  }

  ghost predicate AllAgree(role: Role, tasks: Tasks, kindOf: KindOf) {
    forall x :: x in tasks && tasks[x].kind != Blocked ==> Agrees(role, tasks[x].kind, kindOf(x))
  }

  // ---------- Operations ----------

  predicate Entering(op: Op) {
    op.Enter? || op.EnterRunning? || op.EnterBlocked?
  }

  /** What the callers do with each sort of queue. */
  predicate Allowed(role: Role, op: Op) {
    match role
    case Pool => ((op.Enter? || op.Unblock?) && !op.awaited) || op.EnterBlocked? || op.Leave? || op.Block?
    case TiedChildren => op.Enter? || op.EnterRunning? || op.Leave? || op.Await? || op.Start?
    case UntiedChildren => !op.EnterBlocked?
  }

  predicate QueueLegal(role: Role, tasks: Tasks, op: Op, p: int, kindOf: KindOf) {
    && p >= 0 && Allowed(role, op) && Legal(KindsOf(tasks, p), op)
    && (Entering(op) ==> op.x !in tasks)
    && (op.Leave? && role != Pool ==> op.x in tasks && tasks[op.x].kind == Running)
    && (op.Unblock? ==> kindOf(op.x) != Executing)
  }

  function KindAfter(op: Op): Kind {
    match op
    case Enter(_, _, awaited) => if awaited then Awaited else Plain
    case EnterRunning(_) => Running
    case EnterBlocked(_) => Blocked
    case Leave(_, _) => Blocked
    case Await(_) => Awaited
    case Start(_) => Running
    case Adjust(_, _, awaited) => if awaited then Awaited else Plain
    case Block(_) => Blocked
    case Unblock(_, _, awaited) => if awaited then Awaited else Plain
  }

  /** The whole effect of an operation on what the queue stands for. */
  function QueueAfter(tasks: Tasks, op: Op, p: int): Tasks {
    if op.Leave? then tasks - {op.x} else tasks[op.x := Entry(p, KindAfter(op))]
  }

  lemma AfterAt(tasks: Tasks, op: Op, p: int, role: Role, kindOf: KindOf)
    requires QueueLegal(role, tasks, op, p, kindOf)
    ensures KindsOf(QueueAfter(tasks, op, p), p) == After(KindsOf(tasks, p), op)
  {
  }

  lemma AfterElsewhere(tasks: Tasks, op: Op, p: int, role: Role, kindOf: KindOf, q: int)
    requires QueueLegal(role, tasks, op, p, kindOf) && q != p
    ensures KindsOf(QueueAfter(tasks, op, p), q) == KindsOf(tasks, q)
  {
    assert !Entering(op) ==> op.x in KindsOf(tasks, p);
  }

  // ---------- Marks and the cached priority ----------

  /** A marked list has a schedulable task; only priority 0 may lack its mark. */
  ghost predicate MarksOk(tasks: Tasks, marked: set<int>) {
    && (forall p :: p in marked ==> HasReady(tasks, p))
    && (forall x :: Ready(tasks, x) && tasks[x].priority != 0 ==> tasks[x].priority in marked)
  }

  /** `h` is the greatest priority of any schedulable task, 0 if there is none. */
  ghost predicate IsCache(tasks: Tasks, h: int) {
    && (forall x :: Ready(tasks, x) ==> tasks[x].priority <= h)
    && (h == 0 || HasReady(tasks, h))
  }

  function Cached(h: Hp.Highest): int {
    match h
    case NoneMarked => 0
    case At(k) => k
  }

  lemma MarksGiveCache(tasks: Tasks, marked: set<int>, h: Hp.Highest)
    requires MarksOk(tasks, marked) && Hp.IsHighest(marked, h)
    requires forall x :: x in tasks ==> tasks[x].priority >= 0
    ensures IsCache(tasks, Cached(h))
  {
    forall x | Ready(tasks, x) ensures tasks[x].priority <= Cached(h) {
      if h.At? { assert HasReady(tasks, h.key); }
    }
  }

  lemma CacheUnique(tasks: Tasks, h: int, g: int)
    requires IsCache(tasks, h) && IsCache(tasks, g) && h >= 0 && g >= 0
    ensures h == g
  {
  }

  /** After the operation the list at `p` is `l`: the marks the code sets or clears. */
  function MarkedAfter(marked: set<int>, op: Op, p: int, l: List, kindOf: KindOf): set<int> {
    match op
    case Enter(_, _, _) => marked + {p}
    case EnterRunning(_) => marked
    case EnterBlocked(_) => marked
    case Leave(_, isBlocked) =>
      if l.tasks == Null && l.blockedTasks == Null then marked - {p}
      else if !isBlocked && Idle(l, kindOf) then marked - {p} else marked
    case Await(_) => marked
    case Start(x) => if l.tasks == Null || l.tasks == To(x) || kindOf(l.tasks.node) != Waiting then marked - {p} else marked
    case Adjust(_, _, _) => marked + {p}
    case Block(_) => if Idle(l, kindOf) then marked - {p} else marked
    case Unblock(x, _, _) => if kindOf(x) != Executing then marked + {p} else marked
  }

  predicate Idle(l: List, kindOf: KindOf) {
    l.tasks == Null || kindOf(l.tasks.node) == Executing
  }

  /** A schedulable task at `p` after the operation shows at the head of the list. */
  lemma HeadReady(tasks: Tasks, p: int, l: List)
    requires Represents(l, KindsOf(tasks, p))
    ensures HasReady(tasks, p) <==> l.tasks.To? && Ready(tasks, l.tasks.node)
    ensures l.tasks.To? ==> l.tasks.node in tasks && tasks[l.tasks.node].priority == p && tasks[l.tasks.node].kind != Blocked
  {
    var kinds := KindsOf(tasks, p);
    HeadIsBest(l, kinds);
    if HasReady(tasks, p) {
      var x :| Ready(tasks, x) && tasks[x].priority == p;
      assert x in kinds && kinds[x] == tasks[x].kind;
    }
    if l.tasks.To? { assert l.tasks.node in kinds; }
  }

  lemma ReadyElsewhere(tasks: Tasks, op: Op, p: int, role: Role, kindOf: KindOf, q: int)
    requires QueueLegal(role, tasks, op, p, kindOf) && q != p
    ensures HasReady(QueueAfter(tasks, op, p), q) <==> HasReady(tasks, q)
  {
    var after := QueueAfter(tasks, op, p);
    AfterElsewhere(tasks, op, p, role, kindOf, q);
    if HasReady(tasks, q) {
      var x :| Ready(tasks, x) && tasks[x].priority == q;
      assert x in KindsOf(tasks, q) && x in KindsOf(after, q) && after[x] == tasks[x];
    }
    if HasReady(after, q) {
      var x :| Ready(after, x) && after[x].priority == q;
      assert x in KindsOf(after, q) && x in KindsOf(tasks, q) && after[x] == tasks[x];
    }
  }

  /** The mark at `p` says afterwards what it should. */
  lemma MarkRight(role: Role, tasks: Tasks, marked: set<int>, op: Op, p: int, l: List, kindOf: KindOf)
    requires AllAgree(role, tasks, kindOf) && QueueLegal(role, tasks, op, p, kindOf) && MarksOk(tasks, marked)
    requires Represents(l, KindsOf(QueueAfter(tasks, op, p), p))
    ensures p in MarkedAfter(marked, op, p, l, kindOf) ==> HasReady(QueueAfter(tasks, op, p), p)
    ensures HasReady(QueueAfter(tasks, op, p), p) && p != 0 ==> p in MarkedAfter(marked, op, p, l, kindOf)
  {
    var after := QueueAfter(tasks, op, p);
    HeadReady(after, p, l);
    assert !Entering(op) ==> op.x in KindsOf(tasks, p);
    if op.Enter? || op.Adjust? || op.Unblock? || op.Await? {
      assert Ready(after, op.x) && after[op.x].priority == p;
      assert op.Await? ==> Ready(tasks, op.x) && tasks[op.x].priority == p;
    } else if l.tasks.To? && l.tasks.node != op.x {
      var y := l.tasks.node;
      assert y in tasks && tasks[y] == after[y] && Agrees(role, tasks[y].kind, kindOf(y));
      StillReady(role, tasks, marked, op, p, kindOf);
    } else {
      StillReady(role, tasks, marked, op, p, kindOf);
    }
  }

  /** An operation on a task that is not schedulable leaves the others as they are. */
  lemma StillReady(role: Role, tasks: Tasks, marked: set<int>, op: Op, p: int, kindOf: KindOf)
    requires QueueLegal(role, tasks, op, p, kindOf) && MarksOk(tasks, marked)
    requires !(op.Enter? || op.Adjust? || op.Unblock? || op.Await?)
    ensures !Ready(tasks, op.x) ==> (p in marked ==> HasReady(QueueAfter(tasks, op, p), p))
    ensures HasReady(QueueAfter(tasks, op, p), p) && p != 0 ==> p in marked
  {
    var after := QueueAfter(tasks, op, p);
    if p in marked && !Ready(tasks, op.x) {
      var x :| Ready(tasks, x) && tasks[x].priority == p;
      assert Ready(after, x) && after[x].priority == p;
    }
    if HasReady(after, p) && p != 0 {
      var x :| Ready(after, x) && after[x].priority == p;
      assert Ready(tasks, x) && tasks[x].priority == p;
    }
  }

  lemma MarksStep(role: Role, tasks: Tasks, marked: set<int>, op: Op, p: int, l: List, kindOf: KindOf)
    requires AllAgree(role, tasks, kindOf) && QueueLegal(role, tasks, op, p, kindOf) && MarksOk(tasks, marked)
    requires Represents(l, KindsOf(QueueAfter(tasks, op, p), p))
    ensures MarksOk(QueueAfter(tasks, op, p), MarkedAfter(marked, op, p, l, kindOf))
  {
    var after, marked' := QueueAfter(tasks, op, p), MarkedAfter(marked, op, p, l, kindOf);
    MarkRight(role, tasks, marked, op, p, l, kindOf);
    forall q | q in marked' ensures HasReady(after, q) {
      if q != p { ReadyElsewhere(tasks, op, p, role, kindOf, q); }
    }
    forall x | Ready(after, x) && after[x].priority != 0 ensures after[x].priority in marked' {
      var q := after[x].priority;
      assert HasReady(after, q);
      if q != p {
        ReadyElsewhere(tasks, op, p, role, kindOf, q);
        var y :| Ready(tasks, y) && tasks[y].priority == q;
      }
    }
  }

  // ---------- Counters ----------

  function ReadySet(tasks: Tasks): set<Node> {
    set x | x in tasks && Schedulable(tasks[x].kind)
  }

  /** How the code changes num_waiting_priority_node. */
  function WaitingChange(role: Role, op: Op, kindOf: KindOf): int {
    match op
    case Enter(_, _, _) => 1
    case EnterRunning(_) => 0
    case EnterBlocked(_) => 0
    case Leave(_, isBlocked) => if !isBlocked && role == Pool then -1 else 0
    case Await(_) => 0
    case Start(_) => -1
    case Adjust(_, _, _) => 1
    case Block(x) => if kindOf(x) != Executing then -1 else 0
    case Unblock(_, _, _) => 1
  }

  function NodeChange(op: Op): int {
    if Entering(op) then 1 else if op.Leave? then -1 else 0
  }

  function One(b: bool): int {
    if b then 1 else 0
  }

  /** Only the task itself changes; the others are counted as before. */
  lemma ReadyStep(tasks: Tasks, op: Op, p: int)
    ensures |ReadySet(QueueAfter(tasks, op, p))| == |ReadySet(tasks)| + One(Ready(QueueAfter(tasks, op, p), op.x)) - One(Ready(tasks, op.x))
  {
    var after, x := QueueAfter(tasks, op, p), op.x;
    if Ready(after, x) {
      assert ReadySet(after) == ReadySet(tasks) + {x};
    } else {
      assert ReadySet(after) == ReadySet(tasks) - {x};
    }
  }

  lemma WaitingRight(role: Role, tasks: Tasks, op: Op, p: int, kindOf: KindOf)
    requires AllAgree(role, tasks, kindOf) && QueueLegal(role, tasks, op, p, kindOf)
    ensures Entering(op) <==> op.x !in tasks
    ensures WaitingChange(role, op, kindOf) == One(Ready(QueueAfter(tasks, op, p), op.x)) - One(Ready(tasks, op.x))
  {
    assert !Entering(op) ==> op.x in KindsOf(tasks, p);
  }

  lemma CountStep(role: Role, tasks: Tasks, op: Op, p: int, kindOf: KindOf)
    requires AllAgree(role, tasks, kindOf) && QueueLegal(role, tasks, op, p, kindOf)
    ensures |ReadySet(QueueAfter(tasks, op, p))| == |ReadySet(tasks)| + WaitingChange(role, op, kindOf)
    ensures |QueueAfter(tasks, op, p)| == |tasks| + NodeChange(op)
  {
    WaitingRight(role, tasks, op, p, kindOf);
    ReadyStep(tasks, op, p);
    SizeStep(tasks, op, p);
  }

  lemma SizeStep(tasks: Tasks, op: Op, p: int)
    requires Entering(op) <==> op.x !in tasks
    ensures |QueueAfter(tasks, op, p)| == |tasks| + NodeChange(op)
  {
    var after := QueueAfter(tasks, op, p);
    if op.Leave? {
      assert after.Keys == tasks.Keys - {op.x};
    } else {
      assert after.Keys == tasks.Keys + {op.x};
    }
  }

  // ---------- The lists in the tree ----------

  ghost predicate ListAt(lists: map<int, List>, tasks: Tasks, p: int)
    requires p in lists
  {
    p >= 0 && Represents(lists[p], KindsOf(tasks, p)) && KindsOf(tasks, p) != map[]
  }

  /** Each priority in use has its list. */
  ghost predicate ListsOk(lists: map<int, List>, tasks: Tasks) {
    && (forall p {:trigger ListAt(lists, tasks, p)} :: p in lists ==> ListAt(lists, tasks, p))
    && (forall x :: x in tasks ==> tasks[x].priority in lists)
  }

  lemma OtherLists(lists: map<int, List>, tasks: Tasks, op: Op, p: int, role: Role, kindOf: KindOf, q: int)
    requires ListsOk(lists, tasks) && QueueLegal(role, tasks, op, p, kindOf) && q in lists && q != p
    ensures ListAt(lists, QueueAfter(tasks, op, p), q)
  {
    AfterElsewhere(tasks, op, p, role, kindOf, q);
    assert ListAt(lists, tasks, q);
  }

  lemma ListsStep(lists: map<int, List>, tasks: Tasks, op: Op, p: int, l: List, role: Role, kindOf: KindOf)
    requires ListsOk(lists, tasks) && QueueLegal(role, tasks, op, p, kindOf)
    requires Represents(l, KindsOf(QueueAfter(tasks, op, p), p)) && KindsOf(QueueAfter(tasks, op, p), p) != map[]
    ensures ListsOk(lists[p := l], QueueAfter(tasks, op, p))
  {
    var after, lists' := QueueAfter(tasks, op, p), lists[p := l];
    forall q | q in lists' ensures ListAt(lists', after, q) {
      if q != p { OtherLists(lists, tasks, op, p, role, kindOf, q); }
    }
  }

  lemma ListGone(lists: map<int, List>, tasks: Tasks, op: Op, p: int, role: Role, kindOf: KindOf)
    requires ListsOk(lists, tasks) && QueueLegal(role, tasks, op, p, kindOf) && KindsOf(QueueAfter(tasks, op, p), p) == map[]
    ensures ListsOk(lists - {p}, QueueAfter(tasks, op, p))
  {
    var after, lists' := QueueAfter(tasks, op, p), lists - {p};
    forall q | q in lists' ensures ListAt(lists', after, q) {
      OtherLists(lists, tasks, op, p, role, kindOf, q);
    }
    forall x | x in after ensures after[x].priority in lists' {
      assert x !in KindsOf(after, p);
    }
  }

  lemma NoList(lists: map<int, List>, tasks: Tasks, p: int)
    requires ListsOk(lists, tasks) && p !in lists
    ensures KindsOf(tasks, p) == map[] && Represents(EmptyList, KindsOf(tasks, p))
  {
    ListTheorem([]);
  }

  lemma MarkedHaveLists(lists: map<int, List>, tasks: Tasks, marked: set<int>, p: int)
    requires ListsOk(lists, tasks) && MarksOk(tasks, marked) && p in marked
    ensures p in lists
  {
    assert HasReady(tasks, p);
  }

  /** What one operation makes of the list of its priority. */
  method ListOp(lists: map<int, List>, tasks: Tasks, op: Op, p: int, ghost role: Role, ghost kindOf: KindOf) returns (l: List)
    requires ListsOk(lists, tasks) && QueueLegal(role, tasks, op, p, kindOf)
    ensures !Entering(op) ==> p in lists
    ensures Represents(l, KindsOf(QueueAfter(tasks, op, p), p))
    ensures KindsOf(QueueAfter(tasks, op, p), p) == map[] <==> l.tasks == Null && l.blockedTasks == Null
    ensures !op.Leave? ==> l.tasks.To? || l.blockedTasks.To?
  {
    ghost var kinds := KindsOf(tasks, p);
    if p !in lists { NoList(lists, tasks, p); } else { assert ListAt(lists, tasks, p); }
    var before := if p in lists then lists[p] else EmptyList;
    AfterAt(tasks, op, p, role, kindOf);
    ApplyKeeps(before, kinds, op);
    l := Apply(before, op);
    HeadIsBest(l, KindsOf(QueueAfter(tasks, op, p), p));
    assert !Entering(op) ==> op.x in kinds;
    assert !op.Leave? ==> op.x in KindsOf(QueueAfter(tasks, op, p), p);
  }

  /** Every operation keeps the lists and the marks right. */
  lemma TreeStep(lists: map<int, List>, tasks: Tasks, marked: set<int>, op: Op, p: int, l: List, role: Role, kindOf: KindOf)
    requires ListsOk(lists, tasks) && MarksOk(tasks, marked)
    requires AllAgree(role, tasks, kindOf) && QueueLegal(role, tasks, op, p, kindOf)
    requires Represents(l, KindsOf(QueueAfter(tasks, op, p), p))
    ensures ListsOk(if l.tasks == Null && l.blockedTasks == Null then lists - {p} else lists[p := l], QueueAfter(tasks, op, p))
    ensures MarksOk(QueueAfter(tasks, op, p), MarkedAfter(marked, op, p, l, kindOf))
  {
    MarksStep(role, tasks, marked, op, p, l, kindOf);
    HeadIsBest(l, KindsOf(QueueAfter(tasks, op, p), p));
    if l.tasks == Null && l.blockedTasks == Null {
      ListGone(lists, tasks, op, p, role, kindOf);
    } else {
      ListsStep(lists, tasks, op, p, l, role, kindOf);
    }
  }

  /** The list that an operation leaves, with what it makes of lists and marks. */
  method Prepare(lists: map<int, List>, tasks: Tasks, ghost marked: set<int>, op: Op, p: int, ghost role: Role, ghost kindOf: KindOf)
      returns (l: List)
    requires ListsOk(lists, tasks) && MarksOk(tasks, marked)
    requires AllAgree(role, tasks, kindOf) && QueueLegal(role, tasks, op, p, kindOf)
    ensures (Entering(op) || p in lists) && (op.Leave? || l.tasks.To? || l.blockedTasks.To?)
    ensures ListsOk(if l.tasks == Null && l.blockedTasks == Null then lists - {p} else lists[p := l], QueueAfter(tasks, op, p))
    ensures MarksOk(QueueAfter(tasks, op, p), MarkedAfter(marked, op, p, l, kindOf))
  {
    l := ListOp(lists, tasks, op, p, role, kindOf);
    TreeStep(lists, tasks, marked, op, p, l, role, kindOf);
  }

  // ---------- Selection ----------

  /** The list at `p` offers its head. */
  predicate Offers(lists: map<int, List>, p: int, ok: Node -> bool) {
    p in lists && lists[p].tasks.To? && ok(lists[p].tasks.node)
  }

  /** priority_tree_next_task_1 and priority_tree_next_suspended_task: right subtree, node, left subtree. */
  function NextIn(t: ST.Tree, lists: map<int, List>, ok: Node -> bool): Ptr {
    if t.Leaf? then Null
    else
      var r := NextIn(t.right, lists, ok);
      if r != Null then r
      else if Offers(lists, t.key, ok) then lists[t.key].tasks
      else NextIn(t.left, lists, ok)
  }

  ghost predicate HighestOffer(keys: seq<int>, lists: map<int, List>, ok: Node -> bool, r: Ptr) {
    match r
    case Null => forall p :: p in keys ==> !Offers(lists, p, ok)
    case To(x) => exists p :: p in keys && Offers(lists, p, ok) && lists[p].tasks == r
                           && forall q :: q in keys && q > p ==> !Offers(lists, q, ok)
  }

  lemma {:induction false} NextInHighest(t: ST.Tree, lists: map<int, List>, ok: Node -> bool)
    requires ST.Search(t)
    ensures HighestOffer(ST.InOrder(t), lists, ok, NextIn(t, lists, ok))
  {
    if t.Node? {
      var keys, a, b := ST.InOrder(t), ST.InOrder(t.left), ST.InOrder(t.right);
      assert keys == a + [t.key] + b;
      Ordered(a, t.key, b);
      NextInHighest(t.right, lists, ok);
      NextInHighest(t.left, lists, ok);
      var r := NextIn(t.right, lists, ok);
      if r != Null {
        var p :| p in b && Offers(lists, p, ok) && lists[p].tasks == r && forall q :: q in b && q > p ==> !Offers(lists, q, ok);
        assert p in keys;
      } else if Offers(lists, t.key, ok) {
        assert t.key in keys;
      } else if NextIn(t.left, lists, ok) != Null {
        var l := NextIn(t.left, lists, ok);
        var p :| p in a && Offers(lists, p, ok) && lists[p].tasks == l && forall q :: q in a && q > p ==> !Offers(lists, q, ok);
        assert p in keys;
      }
    }
  }

  lemma Ordered(a: seq<int>, k: int, b: seq<int>)
    requires ST.Sorted(a + [k] + b)
    ensures ST.Sorted(a) && ST.Sorted(b)
    ensures forall x :: x in a ==> x < k
    ensures forall x :: x in b ==> x > k
  {
    var s := a + [k] + b;
    assert s[|a|] == k;
    forall i | 0 <= i < |a| ensures a[i] < k { assert s[i] == a[i]; }
    forall i | 0 <= i < |b| ensures b[i] > k { assert s[|a| + 1 + i] == b[i]; }
    forall i, j | 0 <= i < j < |b| ensures b[i] < b[j] { assert s[|a| + 1 + i] == b[i] && s[|a| + 1 + j] == b[j]; }
    forall i, j | 0 <= i < j < |a| ensures a[i] < a[j] { assert s[i] == a[i] && s[j] == a[j]; }
  }

  /** `r` is a schedulable task of the highest priority, one its parent waits for if there is any there. */
  ghost predicate IsBest(tasks: Tasks, r: Ptr) {
    match r
    case Null => forall y :: !Ready(tasks, y)
    case To(x) =>
      && Ready(tasks, x)
      && forall y :: Ready(tasks, y) ==>
           tasks[y].priority < tasks[x].priority
           || (tasks[y].priority == tasks[x].priority && (tasks[y].kind == Awaited ==> tasks[x].kind == Awaited))
  }

  /** The head of a list passes the test exactly if it is schedulable. */
  ghost predicate Tells(tasks: Tasks, ok: Node -> bool) {
    forall x :: x in tasks && tasks[x].kind != Blocked ==> (ok(x) <==> Schedulable(tasks[x].kind))
  }

  lemma OfferIsReady(lists: map<int, List>, tasks: Tasks, p: int, ok: Node -> bool)
    requires Tells(tasks, ok) && p in lists && Represents(lists[p], KindsOf(tasks, p))
    ensures Offers(lists, p, ok) <==> HasReady(tasks, p)
    ensures Offers(lists, p, ok) ==> Ready(tasks, lists[p].tasks.node) && tasks[lists[p].tasks.node].priority == p
    ensures Offers(lists, p, ok) ==> forall y :: y in tasks && tasks[y] == Entry(p, Awaited) ==> tasks[lists[p].tasks.node].kind == Awaited
  {
    HeadReady(tasks, p, lists[p]);
    var kinds := KindsOf(tasks, p);
    HeadIsBest(lists[p], kinds);
    forall y | y in tasks && tasks[y] == Entry(p, Awaited) ensures y in kinds && kinds[y] == Awaited { }
  }

  lemma TreeNextBest(t: ST.Tree, lists: map<int, List>, tasks: Tasks, ok: Node -> bool)
    requires ST.Search(t) && ListsOk(lists, tasks) && Tells(tasks, ok)
    requires forall p :: p in ST.InOrder(t) <==> p in lists
    ensures IsBest(tasks, NextIn(t, lists, ok))
  {
    var keys, r := ST.InOrder(t), NextIn(t, lists, ok);
    NextInHighest(t, lists, ok);
    forall p | p in lists
      ensures Offers(lists, p, ok) <==> HasReady(tasks, p)
      ensures Offers(lists, p, ok) ==> Ready(tasks, lists[p].tasks.node) && tasks[lists[p].tasks.node].priority == p
    {
      assert ListAt(lists, tasks, p);
      OfferIsReady(lists, tasks, p, ok);
    }
    forall y | Ready(tasks, y) ensures tasks[y].priority in keys && Offers(lists, tasks[y].priority, ok) {
      assert HasReady(tasks, tasks[y].priority);
    }
    if r.To? {
      var p :| p in keys && Offers(lists, p, ok) && lists[p].tasks == r && forall q :: q in keys && q > p ==> !Offers(lists, q, ok);
      assert ListAt(lists, tasks, p);
      OfferIsReady(lists, tasks, p, ok);
    }
  }

  lemma FlatNextBest(flat: List, tasks: Tasks, ok: Node -> bool)
    requires Represents(flat, KindsOf(tasks, 0)) && Tells(tasks, ok) && forall x :: x in tasks ==> tasks[x].priority == 0
    ensures IsBest(tasks, if flat.tasks.To? && ok(flat.tasks.node) then flat.tasks else Null)
  {
    var lists := map[0 := flat];
    OfferIsReady(lists, tasks, 0, ok);
    forall y | Ready(tasks, y) ensures HasReady(tasks, 0) { }
  }

  /** The search finds the cached priority. */
  lemma CacheAgrees(tasks: Tasks, h: int, r: Ptr)
    requires IsCache(tasks, h) && IsBest(tasks, r) && forall x :: x in tasks ==> tasks[x].priority >= 0
    ensures r == Null ==> h == 0
    ensures r.To? ==> h == tasks[r.node].priority
  {
  }

  /** The preference between the candidates of two queues. */
  predicate SecondWins(t1: Tasks, r1: Ptr, t2: Tasks, r2: Ptr, parentDependsOn: Node -> bool)
    requires r1.To? ==> r1.node in t1
    requires r2.To? ==> r2.node in t2
  {
    r2.To? && (r1 == Null || t2[r2.node].priority > t1[r1.node].priority
               || (t2[r2.node].priority == t1[r1.node].priority && parentDependsOn(r2.node) && !parentDependsOn(r1.node)))
  }

  /** parent_depends_on of the schedulable tasks is what the lists go by. */
  ghost predicate DependsRight(t: Tasks, parentDependsOn: Node -> bool) {
    forall x :: Ready(t, x) ==> (parentDependsOn(x) <==> t[x].kind == Awaited)
  }

  /** The second queue has a schedulable task above all of the first, or an awaited one that no task of the
      first beats and no awaited one equals. */
  ghost predicate SecondPreferred(t1: Tasks, t2: Tasks) {
    exists y :: Ready(t2, y) && Beats(t1, t2, y)
  }

  ghost predicate Beats(t1: Tasks, t2: Tasks, y: Node)
    requires Ready(t2, y)
  {
    forall x :: Ready(t1, x) ==>
      t1[x].priority < t2[y].priority
      || (t1[x].priority == t2[y].priority && t2[y].kind == Awaited && t1[x].kind != Awaited)
  }

  /** Nothing schedulable in either queue has a higher priority than `r`; the second queue is chosen exactly
      if it is preferred, and no awaited task of the priority of `r` is passed over. */
  ghost predicate BestOfTwo(t1: Tasks, h1: int, t2: Tasks, h2: int, r: Ptr, firstChosen: bool, parentDependsOn: Node -> bool) {
    var mine := if firstChosen then t1 else t2;
    var agree := DependsRight(t1, parentDependsOn) && DependsRight(t2, parentDependsOn);
    && (agree ==> (firstChosen <==> !SecondPreferred(t1, t2)))
    && match r
    case Null => firstChosen && forall y :: !Ready(t1, y) && !Ready(t2, y)
    case To(x) =>
      && Ready(mine, x)
      && (forall y :: Ready(t1, y) ==> t1[y].priority <= mine[x].priority)
      && (forall y :: Ready(t2, y) ==> t2[y].priority <= mine[x].priority)
      && (agree && mine[x].kind != Awaited ==>
            (forall y :: Ready(t1, y) && t1[y].priority == mine[x].priority ==> t1[y].kind != Awaited) &&
            (forall y :: Ready(t2, y) && t2[y].priority == mine[x].priority ==> t2[y].kind != Awaited))
      && (!firstChosen && !parentDependsOn(x) ==> forall y :: Ready(t1, y) ==> t1[y].priority < mine[x].priority)
      && mine[x].priority == if h1 > h2 then h1 else h2
  }

  ghost predicate BestOfOne(t: Tasks, h: int, r: Ptr) {
    && IsBest(t, r) && h >= 0
    && h == match r case Null => 0 case To(x) => t[x].priority
  }

  lemma ChooseBest(t1: Tasks, h1: int, r1: Ptr, t2: Tasks, h2: int, r2: Ptr, parentDependsOn: Node -> bool)
    requires BestOfOne(t1, h1, r1) && BestOfOne(t2, h2, r2)
    ensures SecondWins(t1, r1, t2, r2, parentDependsOn) ==> BestOfTwo(t1, h1, t2, h2, r2, false, parentDependsOn)
    ensures !SecondWins(t1, r1, t2, r2, parentDependsOn) ==> BestOfTwo(t1, h1, t2, h2, r1, true, parentDependsOn)
  {
  }

  /** priority_queue_next_task. */
  method NextOfTwo(q1: Queue, q2: Queue, ok: Node -> bool, parentDependsOn: Node -> bool) returns (r: Ptr, firstChosen: bool)
    requires q1.Valid() && q2.Valid() && Tells(q1.tasks, ok) && Tells(q2.tasks, ok)
    ensures BestOfTwo(q1.tasks, q1.highestPriority, q2.tasks, q2.highestPriority, r, firstChosen, parentDependsOn)
  {
    var r1 := q1.Next(ok);
    var r2 := q2.Next(ok);
    ChooseBest(q1.tasks, q1.highestPriority, r1, q2.tasks, q2.highestPriority, r2, parentDependsOn);
    firstChosen := !SecondWins(q1.tasks, r1, q2.tasks, r2, parentDependsOn);
    r := if firstChosen then r1 else r2;
  }

  class Queue {
    const role: Role
    const tree: Hp.PrioTree
    var lists: map<int, List>
    var flat: List
    var numNode: int
    var numWaiting: int
    var highestPriority: int
    var tasks: Tasks

    constructor (role: Role)
      ensures Valid() && tasks == map[] && this.role == role && fresh(tree)
    {
      this.role := role;
      tree := new Hp.PrioTree();
      lists, flat, tasks := map[], EmptyList, map[];
      numNode, numWaiting, highestPriority := 0, 0, 0;
      new;
      ListTheorem([]);
      assert KindsOf(tasks, 0) == map[] && ReadySet(tasks) == {};
    }

    ghost predicate Counted()
      reads this
    {
      numNode == |tasks| && numWaiting == |ReadySet(tasks)|
    }

    ghost predicate TreeLinked()
      reads this`lists, this`highestPriority, tree
    {
      && tree.Valid() && (forall p :: p in tree.Keys() <==> p in lists)
      && highestPriority == Cached(tree.highest)
    }

    /** The tree holds everything. */
    ghost predicate TreeOk()
      reads this`lists, this`flat, this`highestPriority, this`tasks, tree
    {
      && TreeLinked() && ListsOk(lists, tasks) && MarksOk(tasks, tree.marked)
      && flat.tasks == Null && flat.blockedTasks == Null
    }

    /** There is only priority 0, in one list. */
    ghost predicate FlatOk()
      reads this`lists, this`flat, this`highestPriority, this`tasks, tree
    {
      && tree.Valid() && tree.root == ST.Leaf && lists == map[] && highestPriority == 0
      && Represents(flat, KindsOf(tasks, 0))
      && forall x :: x in tasks ==> tasks[x].priority == 0
    }

    ghost predicate Valid()
      reads this, tree
    {
      Counted() && Shaped()
    }

    /** The cache is the greatest priority of any schedulable task. */
    lemma CacheRight()
      requires Valid()
      ensures IsCache(tasks, highestPriority) && highestPriority >= 0
      ensures forall x :: x in tasks ==> tasks[x].priority >= 0
    {
      if tree.root != ST.Leaf {
        forall x | x in tasks ensures tasks[x].priority >= 0 {
          assert ListAt(lists, tasks, tasks[x].priority);
        }
        MarksGiveCache(tasks, tree.marked, tree.highest);
        if tree.highest.At? {
          MarkedHaveLists(lists, tasks, tree.marked, tree.highest.key);
          assert ListAt(lists, tasks, tree.highest.key);
        }
      }
    }

    /** The candidate of one queue. */
    method Next(ok: Node -> bool) returns (r: Ptr)
      requires Valid() && Tells(tasks, ok)
      ensures BestOfOne(tasks, highestPriority, r)
    {
      if tree.root != ST.Leaf {
        r := NextIn(tree.root, lists, ok);
        TreeNextBest(tree.root, lists, tasks, ok);
      } else {
        r := if flat.tasks.To? && ok(flat.tasks.node) then flat.tasks else Null;
        FlatNextBest(flat, tasks, ok);
      }
      CacheRight();
      CacheAgrees(tasks, highestPriority, r);
    }

    /** prio_splay_tree_hp_list_mark_node and the refresh of the cache. */
    method SetMark(p: int, on: bool)
      requires tree.Valid() && p in tree.Keys() && highestPriority == Cached(tree.highest)
      modifies this`highestPriority, tree`marked, tree`numMarked, tree`highest
      ensures tree.Valid() && tree.Keys() == old(tree.Keys()) && highestPriority == Cached(tree.highest)
      ensures tree.marked == if on then old(tree.marked) + {p} else old(tree.marked) - {p}
    {
      var changed := tree.MarkNode(p, on);
      if changed {
        highestPriority := Cached(tree.highest);
      }
    }

    method FirstNode(mark: bool)
      requires tree.Valid() && tree.Keys() == [] && tree.marked == {}
      modifies tree
      ensures tree.Valid() && tree.Keys() == [0] && tree.marked == (if mark then {0} else {}) && Cached(tree.highest) == 0
    {
      Hp.InsertSortedFacts([], 0);
      var _, _ := tree.Insert(0, mark);
      assert ST.InsertSorted([], 0) == [0];
    }

    /** The first priority above 0 arrives: the list of priority 0 moves into the tree. Nothing is lost
        exactly if the list is not made of blocked tasks only. */
    method Transfer(kindOf: KindOf)
      requires FlatOk() && AllAgree(role, tasks, kindOf)
      modifies this`lists, this`flat, tree
      ensures ListsOk(lists, tasks) <==> old(flat.tasks.To? || flat.blockedTasks == Null)
      ensures ListsOk(lists, tasks) ==> TreeOk()
    {
      TransferLists(flat, tasks);
      assert tree.marked == {};
      if flat.tasks != Null {
        var mark := kindOf(flat.tasks.node) == Waiting;
        TransferMarks(flat, tasks, role, kindOf);
        FirstNode(mark);
        lists := map[0 := flat];
        flat := flat.(tasks := Null, blockedTasks := Null);
      }
    }

    /** A node for priority `p`, created unless it exists, and marked for a schedulable task. */
    method NodeFor(p: int, ready: bool)
      requires TreeLinked()
      modifies this`highestPriority, this`lists, tree
      ensures TreeLinked()
      ensures tree.marked == if ready then old(tree.marked) + {p} else old(tree.marked)
      ensures lists == if p in old(lists) then old(lists) else old(lists)[p := EmptyList]
    {
      var found := tree.Lookup(p);
      if !found {
        Hp.InsertSortedFacts(tree.Keys(), p);
        ghost var before := tree.highest;
        var _, changed := tree.Insert(p, ready);
        if !ready { Hp.HighestUnique(tree.marked, before, tree.highest); }
        if changed && ready {
          highestPriority := Cached(tree.highest);
        }
        lists := lists[p := EmptyList];
      } else if ready {
        SetMark(p, true);
      }
    }

    method EnterNode(op: Op, p: int, l: List, ghost kindOf: KindOf)
      requires TreeLinked() && Entering(op)
      modifies this`lists, this`highestPriority, tree
      ensures TreeLinked() && lists == old(lists)[p := l] && tree.marked == MarkedAfter(old(tree.marked), op, p, l, kindOf)
    {
      NodeFor(p, op.Enter?);
      lists := lists[p := l];
    }

    method MoveNode(op: Op, p: int, l: List, kindOf: KindOf)
      requires TreeLinked() && p in lists && !Entering(op) && (l.tasks.To? || l.blockedTasks.To?)
      modifies this`lists, this`highestPriority, tree
      ensures TreeLinked() && lists == old(lists)[p := l] && tree.marked == MarkedAfter(old(tree.marked), op, p, l, kindOf)
    {
      var _ := tree.Lookup(p);
      Remark(op, p, l, kindOf);
      lists := lists[p := l];
    }

    /** The node of an emptied list leaves the tree. */
    method DropNode(p: int)
      requires TreeLinked() && p in lists
      modifies this`highestPriority, this`lists, tree
      ensures TreeLinked()
      ensures tree.marked == old(tree.marked) - {p} && lists == old(lists) - {p}
    {
      ghost var keys := tree.Keys();
      var changed := tree.Remove(p);
      if changed {
        highestPriority := Cached(tree.highest);
      }
      RemovedKeys(keys, p, tree.Keys());
      lists := lists - {p};
    }

    /** Set or clear the mark of a list that stays. */
    method Remark(op: Op, p: int, l: List, kindOf: KindOf)
      requires TreeLinked() && p in lists && !Entering(op) && (l.tasks.To? || l.blockedTasks.To?)
      modifies this`highestPriority, tree`marked, tree`numMarked, tree`highest
      ensures TreeLinked() && tree.marked == MarkedAfter(old(tree.marked), op, p, l, kindOf)
    {
      if op.Adjust? || (op.Unblock? && kindOf(op.x) != Executing) {
        SetMark(p, true);
      } else if op.Start? && (l.tasks == Null || l.tasks == To(op.x) || kindOf(l.tasks.node) != Waiting) {
        SetMark(p, false);
      } else if (op.Block? || (op.Leave? && !op.isBlocked)) && Idle(l, kindOf) {
        SetMark(p, false);
      }
    }

    /** The tree after the operation that left the list `l`. */
    method Update(op: Op, p: int, l: List, kindOf: KindOf)
      requires TreeLinked() && (Entering(op) || p in lists) && (op.Leave? || l.tasks.To? || l.blockedTasks.To?)
      modifies this`lists, this`highestPriority, tree
      ensures TreeLinked() && tree.marked == MarkedAfter(old(tree.marked), op, p, l, kindOf)
      ensures lists == if l.tasks == Null && l.blockedTasks == Null then old(lists) - {p} else old(lists)[p := l]
    {
      if Entering(op) {
        EnterNode(op, p, l, kindOf);
      } else if l.tasks == Null && l.blockedTasks == Null {
        DropNode(p);
      } else {
        MoveNode(op, p, l, kindOf);
      }
    }

    /** Any operation in tree form. */
    method TreeOp(op: Op, p: int, kindOf: KindOf)
      requires TreeOk() && AllAgree(role, tasks, kindOf) && QueueLegal(role, tasks, op, p, kindOf)
      modifies this`lists, this`highestPriority, this`tasks, tree
      ensures TreeOk() && tasks == QueueAfter(old(tasks), op, p)
    {
      var l := Prepare(lists, tasks, tree.marked, op, p, role, kindOf);
      Install(op, p, l, kindOf, QueueAfter(tasks, op, p));
      tasks := QueueAfter(tasks, op, p);
    }

    /** The update of the tree that makes lists and marks right for the tasks `after`. */
    method Install(op: Op, p: int, l: List, kindOf: KindOf, ghost after: Tasks)
      requires TreeLinked() && (Entering(op) || p in lists) && (op.Leave? || l.tasks.To? || l.blockedTasks.To?)
      requires ListsOk(if l.tasks == Null && l.blockedTasks == Null then lists - {p} else lists[p := l], after)
      requires MarksOk(after, MarkedAfter(tree.marked, op, p, l, kindOf))
      modifies this`lists, this`highestPriority, tree
      ensures TreeLinked() && ListsOk(lists, after) && MarksOk(after, tree.marked)
    {
      Update(op, p, l, kindOf);
    }

    /** The versions for one list. */
    method FlatOp(op: Op, kindOf: KindOf)
      requires FlatOk() && AllAgree(role, tasks, kindOf) && QueueLegal(role, tasks, op, 0, kindOf)
      modifies this`flat, this`tasks
      ensures FlatOk() && tasks == QueueAfter(old(tasks), op, 0)
    {
      AfterAt(tasks, op, 0, role, kindOf);
      ApplyKeeps(flat, KindsOf(tasks, 0), op);
      flat := Apply(flat, op);
      tasks := QueueAfter(tasks, op, 0);
    }

    /** The cursors of the one list are not reset when its tasks move to the tree: the emptied queue is as
        good as new exactly if they were NULL then. */
    lemma Emptied()
      requires TreeOk() && tree.root == ST.Leaf
      ensures tasks == map[] && (FlatOk() <==> flat.lastParentDependsOn == Null && flat.firstRunning == Null)
    {
      assert tree.Keys() == [];
      NoKeys(lists, tree.Keys());
      assert tasks == map[] && KindsOf(tasks, 0) == map[];
      EmptyFlat(flat);
      assert tree.marked == {};
    }

    ghost predicate Shaped()
      reads this`lists, this`flat, this`highestPriority, this`tasks, tree
    {
      if tree.root == ST.Leaf then FlatOk() else TreeOk()
    }

    /** The operation without the counters. */
    method Operate(op: Op, p: int, kindOf: KindOf)
      requires Shaped() && AllAgree(role, tasks, kindOf) && QueueLegal(role, tasks, op, p, kindOf)
      requires p > 0 && tree.root == ST.Leaf ==> flat.tasks.To? || flat.blockedTasks == Null
      modifies this`flat, this`lists, this`highestPriority, this`tasks, tree
      ensures tasks == QueueAfter(old(tasks), op, p)
      ensures old(tree.root) == ST.Leaf && p == 0 ==> Shaped()
      ensures tree.root != ST.Leaf ==> Shaped()
      ensures !(old(tree.root) == ST.Leaf && p == 0) && tree.root == ST.Leaf ==>
        tasks == map[] && (Shaped() <==> flat.lastParentDependsOn == Null && flat.firstRunning == Null)
    {
      if tree.root == ST.Leaf && p == 0 {
        FlatOp(op, kindOf);
      } else {
        if tree.root == ST.Leaf {
          Transfer(kindOf);
        }
        TreeOp(op, p, kindOf);
        if tree.root == ST.Leaf { Emptied(); }
      }
    }

    method Recount(op: Op, p: int, kindOf: KindOf, ghost before: Tasks)
      requires AllAgree(role, before, kindOf) && QueueLegal(role, before, op, p, kindOf)
      requires tasks == QueueAfter(before, op, p) && numNode == |before| && numWaiting == |ReadySet(before)|
      modifies this`numNode, this`numWaiting
      ensures Counted()
    {
      CountStep(role, before, op, p, kindOf);
      numNode := numNode + NodeChange(op);
      numWaiting := numWaiting + WaitingChange(role, op, kindOf);
    }

    /** Any operation on the queue: it stays Valid, except that an emptied tree leaves the cursors of the one
        list as they were. */
    method Perform(op: Op, p: int, kindOf: KindOf)
      requires Valid() && AllAgree(role, tasks, kindOf) && QueueLegal(role, tasks, op, p, kindOf)
      requires p > 0 && tree.root == ST.Leaf ==> flat.tasks.To? || flat.blockedTasks == Null
      modifies this, tree
      ensures tasks == QueueAfter(old(tasks), op, p) && Counted()
      ensures old(tree.root) == ST.Leaf && p == 0 ==> Shaped()
      ensures tree.root != ST.Leaf ==> Shaped()
      ensures !(old(tree.root) == ST.Leaf && p == 0) && tree.root == ST.Leaf ==>
        tasks == map[] && (Shaped() <==> flat.lastParentDependsOn == Null && flat.firstRunning == Null)
    {
      Operate(op, p, kindOf);
      Recount(op, p, kindOf, old(tasks));
    }
  }

  lemma NoKeys(lists: map<int, List>, keys: seq<int>)
    requires keys == [] && forall p :: p in keys <==> p in lists
    ensures lists == map[]
  {
    forall p | p in lists.Keys ensures p in keys { }
    assert forall p :: p !in lists.Keys;
  }

  lemma SomeoneKnown(v: View, kinds: Kinds)
    requires Holds(v, kinds)
    ensures v.ring != [] || v.blocked != [] ==> exists x :: x in kinds
  {
    if v.ring != [] { assert v.ring[0] in kinds; }
    if v.blocked != [] { assert v.blocked[0] in kinds; }
  }

  /** Nothing is left exactly when no cursor points anywhere. */
  lemma EmptyFlat(flat: List)
    ensures Represents(flat, map[]) <==> flat == EmptyList.(links := flat.links)
  {
    var none := View([], 0, 0, []);
    if Represents(flat, map[]) {
      var v :| Inv(flat, v) && Holds(v, map[]);
      SomeoneKnown(v, map[]);
    }
    if flat == EmptyList.(links := flat.links) {
      Witness(flat, none, map[]);
    }
  }

  lemma RemovedKeys(s: seq<int>, p: int, r: seq<int>)
    requires Hp.Removed(s, p, r)
    ensures forall q :: q in r <==> q in s && q != p
  {
  }

  lemma TransferLists(flat: List, tasks: Tasks)
    requires Represents(flat, KindsOf(tasks, 0)) && forall x :: x in tasks ==> tasks[x].priority == 0
    ensures flat.tasks.To? ==> ListsOk(map[0 := flat], tasks)
    ensures flat.tasks == Null ==> (ListsOk(map[], tasks) <==> flat.blockedTasks == Null)
    ensures flat.tasks == Null && flat.blockedTasks == Null ==> tasks == map[]
  {
    var kinds := KindsOf(tasks, 0);
    HeadIsBest(flat, kinds);
    forall x | x in tasks ensures x in kinds { }
    if flat.tasks.To? {
      assert flat.tasks.node in kinds;
    } else if flat.blockedTasks.To? {
      var x :| x in kinds && kinds[x] == Blocked;
      assert x in tasks;
    }
  }

  /** One blocked task of priority 0 alone in the queue: the transfer leaves it behind. */
  lemma BlockedOnlyIsLost() returns (flat: List, tasks: Tasks)
    ensures Represents(flat, KindsOf(tasks, 0)) && flat.tasks == Null && !ListsOk(map[], tasks)
  {
    var ops := [EnterBlocked(7)];
    ListTheorem(ops);
    flat, tasks := ApplyAll(EmptyList, ops), map[7 := Entry(0, Blocked)];
    assert ops[1..] == [];
    assert ApplyAll(EmptyList, ops) == ApplyAll(Apply(EmptyList, ops[0]), []);
    assert AfterAll(map[], ops) == AfterAll(After(map[], ops[0]), []);
    assert KindsOf(tasks, 0) == map[7 := Blocked];
    assert tasks[7].priority == 0;
  }

  /** One running task of priority 0 moves to the tree: its cursor stays in the list left behind. */
  lemma CursorIsLeft() returns (flat: List)
    ensures Represents(flat, map[7 := Running]) && !Represents(flat.(tasks := Null, blockedTasks := Null), map[])
  {
    var ops := [EnterRunning(7)];
    ListTheorem(ops);
    flat := ApplyAll(EmptyList, ops);
    assert ops[1..] == [];
    assert ApplyAll(EmptyList, ops) == ApplyAll(Apply(EmptyList, ops[0]), []);
    assert AfterAll(map[], ops) == AfterAll(After(map[], ops[0]), []);
    EmptyFlat(flat.(tasks := Null, blockedTasks := Null));
  }

  lemma TransferMarks(flat: List, tasks: Tasks, role: Role, kindOf: KindOf)
    requires Represents(flat, KindsOf(tasks, 0)) && AllAgree(role, tasks, kindOf) && flat.tasks.To?
    requires forall x :: x in tasks ==> tasks[x].priority == 0
    ensures MarksOk(tasks, if kindOf(flat.tasks.node) == Waiting then {0} else {})
  {
    HeadReady(tasks, 0, flat);
  }
}
