/** The task-switch machine of task.h and task.c: every thread's switch_task / switch_from_task links
    and its list of tied tasks, under suspension, resumption, completion and task creation.

    Every step runs under the team lock, so a step is atomic.  `Mem` is what the C structures hold:
    a pointer field is a map in which an absent key is NULL. */
module TaskSwitch {
  import opened Links

  type Task = nat
  type Thread = nat

  /** WAITING covers fresh tasks and suspended untied ones. */
  datatype Kind = ImplicitTask | Waiting | Running | TiedSuspended

  /** The list of tied tasks: next_tied_task and previous_tied_task, and last_tied_task of each thread. */
  datatype TiedList = TiedList(links: Dll<Task>, last: map<Thread, Task>)

  /** What creation fixes, and the parent pointers.  `creator` records who created whom and is never
      changed, unlike `parent`, which is cleared when the parent terminates. */
  datatype Tree = Tree(
    implicit: map<Thread, Task>,
    untied: set<Task>,
    creator: map<Task, Task>,
    parent: map<Task, Task>,
    ascending: map<Task, Task>,
    nextId: nat)

  /** `sw.next` is switch_from_task and `sw.prev` is switch_task. */
  datatype Mem = Mem(
    sw: Dll<Task>,
    tied: TiedList,
    kind: map<Task, Kind>,
    running: map<Thread, Task>,
    suspended: map<Thread, set<Task>>,
    tree: Tree)

  // ---------- The steps ----------

  predicate IsImplicit(m: Mem, x: Task) {
    x in m.kind && m.kind[x] == ImplicitTask
  }

  /** gomp_task_run_pre: take `n` out of its queue and, if it was suspended here, out of the switch path. */
  function RunPre(m: Mem, th: Thread, n: Task): Mem
    requires th in m.suspended
  {
    if n in m.kind && m.kind[n] == TiedSuspended then
      m.(suspended := m.suspended[th := m.suspended[th] - {n}], sw := Unlink(m.sw, n), kind := m.kind[n := Running])
    else
      m.(kind := m.kind[n := Running])
  }

  /** gomp_insert_task_in_tied_list; `implicit` says whether the implicit task calls it. */
  function InsertTied(t: TiedList, th: Thread, implicit: bool, n: Task): TiedList {
    if implicit then t.(last := t.last[th := n])
    else if n in t.links.prev || n in t.links.next then t
    else if th in t.last && t.last[th] != n then
      TiedList(Dll(t.links.next[t.last[th] := n], t.links.prev[n := t.last[th]]), t.last[th := n])
    else t.(last := t.last[th := n])
  }

  /** gomp_remove_task_from_tied_list of the completed `x`. */
  function RemoveTied(t: TiedList, th: Thread, implicit: bool, x: Task): TiedList {
    if implicit then t.(last := t.last - {th})
    else if th in t.last && t.last[th] == x then
      if x in t.links.prev then TiedList(Cut(t.links, t.links.prev[x]), t.last[th := t.links.prev[x]])
      else t.(last := t.last - {th})
    else t.(links := Unlink(t.links, x))
  }

  /** gomp_suspend_tied_task_for_successor: the running task stays on the path below `n`. */
  function SuspendTied(m: Mem, th: Thread, n: Task): Mem
    requires th in m.running && th in m.suspended
  {
    var x := m.running[th];
    var m1 := m.(sw := Push(m.sw, x, n),
                 tied := if n in m.tree.untied then m.tied else InsertTied(m.tied, th, IsImplicit(m, x), n),
                 running := m.running[th := n]);
    if IsImplicit(m, x) then m1
    else m1.(suspended := m.suspended[th := m.suspended[th] + {x}], kind := m.kind[x := TiedSuspended])
  }

  /** `n` takes over the switch links of `x`. */
  function Replace(sw: Dll<Task>, x: Task, n: Task): Dll<Task>
    requires x in sw.prev
  {
    var pushed := Push(sw, sw.prev[x], n);
    Dll(pushed.next - {x}, pushed.prev - {x})
  }

  /** gomp_suspend_untied_task_for_successor: `n` takes the place of the running task on the path. */
  function SuspendUntied(m: Mem, th: Thread, n: Task): Mem
    requires th in m.running && m.running[th] in m.sw.prev
  {
    var x := m.running[th];
    m.(sw := Replace(m.sw, x, n),
       tied := if n in m.tree.untied then m.tied else InsertTied(m.tied, th, IsImplicit(m, x), n),
       kind := m.kind[x := Waiting],
       running := m.running[th := n])
  }

  /** The children in the queues of the terminating `x` lose their parent. */
  function ClearParent(tr: Tree, x: Task): Tree {
    var inherits := set t | t in tr.parent && tr.parent[t] == x && t in tr.ascending && tr.ascending[t] == x;
    tr.(parent := (map t | t in tr.parent && tr.parent[t] != x :: tr.parent[t]),
        ascending :=
          if x in tr.ascending then map t | t in tr.ascending :: if t in inherits then tr.ascending[x] else tr.ascending[t]
          else tr.ascending - inherits)
  }

  /** The completion of the running task: context.c switches to switch_task, whose saved context finds
      the completed task in switch_from_task and terminates it. */
  function Complete(m: Mem, th: Thread): Mem
    requires th in m.running && th in m.suspended && m.running[th] in m.sw.prev
  {
    var x := m.running[th];
    var y := m.sw.prev[x];
    var m1 := m.(running := m.running[th := y],
                 sw := Cut(m.sw, y),
                 tied := if x in m.tree.untied then m.tied else RemoveTied(m.tied, th, IsImplicit(m, y), x),
                 kind := m.kind - {x},
                 tree := ClearParent(m.tree, x));
    if y in m.kind && m.kind[y] == TiedSuspended then
      m1.(suspended := m.suspended[th := m.suspended[th] - {y}], kind := m1.kind[y := Running])
    else m1
  }

  function Created(tr: Tree, x: Task, implicit: bool, isUntied: bool): Tree {
    var t := tr.nextId;
    tr.(nextId := t + 1,
        untied := if isUntied then tr.untied + {t} else tr.untied,
        creator := tr.creator[t := x],
        parent := tr.parent[t := x],
        ascending :=
          if implicit then tr.ascending
          else if x !in tr.untied then tr.ascending[t := x]
          else if x in tr.ascending then tr.ascending[t := tr.ascending[x]]
          else tr.ascending)
  }

  /** GOMP_task by the running task. */
  function CreateTask(m: Mem, th: Thread, isUntied: bool): Mem
    requires th in m.running
  {
    var x := m.running[th];
    m.(kind := m.kind[m.tree.nextId := Waiting], tree := Created(m.tree, x, IsImplicit(m, x), isUntied))
  }

  // ---------- What the scheduling points may start ----------

  /** Where a scheduling point found a fresh tied task. */
  datatype Source = ChildOfLastTied | ChildOfUntied | Taskwait | Taskgroup | NothingTied

  /** The tests under which the scheduling points offer the fresh tied task `n` to thread `th`. */
  predicate Offered(m: Mem, th: Thread, n: Task, from: Source)
    requires th in m.running
  {
    var x := m.running[th];
    match from
    case ChildOfLastTied => th in m.tied.last && n in m.tree.parent && m.tree.parent[n] == m.tied.last[th]
    case ChildOfUntied =>
      && th in m.tied.last && x in m.tree.untied && x in m.tree.ascending && m.tied.last[th] == m.tree.ascending[x]
      && n in m.tree.parent && m.tree.parent[n] == x
    case Taskwait =>
      && n in m.tree.parent && m.tree.parent[n] == x
      && (th in m.tied.last ==>
            if x in m.tree.untied then x in m.tree.ascending && m.tied.last[th] == m.tree.ascending[x] else m.tied.last[th] == x)
    case Taskgroup => th in m.tied.last ==> n in m.tree.ascending && m.tied.last[th] == m.tree.ascending[n]
    case NothingTied => th !in m.tied.last
  }

  /** `n` may be given control on `th`: a task suspended there, an untied task that waits, or a fresh
      tied task that some scheduling point offers. */
  ghost predicate MayRun(m: Mem, th: Thread, n: Task) {
    && th in m.running && th in m.suspended
    && n in m.kind
    && (m.kind[n] == TiedSuspended ==> n in m.suspended[th])
    && (m.kind[n] == TiedSuspended || m.kind[n] == Waiting)
    && (m.kind[n] == Waiting && n !in m.tree.untied ==> exists from :: Offered(m, th, n, from))
  }

  function Switch(m: Mem, th: Thread, n: Task): Mem
    requires th in m.running && th in m.suspended
    requires m.running[th] in m.tree.untied ==> m.running[th] in RunPre(m, th, n).sw.prev
  {
    if m.running[th] in m.tree.untied then SuspendUntied(RunPre(m, th, n), th, n)
    else SuspendTied(RunPre(m, th, n), th, n)
  }

  // ---------- The paths and chains the pointers spell ----------

  /** Per thread, the path from the implicit to the running task and the tied tasks in starting order;
      `owner` tells on whose path a task is. */
  datatype View = View(path: map<Thread, seq<Task>>, chain: map<Thread, seq<Task>>, owner: map<Task, Thread>)

  /** `d` was created, directly or not, by `a`. */
  predicate Descends(creator: map<Task, Task>, a: Task, d: Task)
    decreases d
  {
    d in creator && creator[d] < d && (creator[d] == a || Descends(creator, a, creator[d]))
  }

  function Interior(p: seq<Task>): set<Task> {
    set i | 0 < i < |p| - 1 :: p[i]
  }

  ghost predicate PathOk(m: Mem, v: View, th: Thread)
    requires th in v.path && th in m.tree.implicit && th in m.running && th in m.suspended
  {
    var p := v.path[th];
    && p != [] && p[0] == m.tree.implicit[th] && Last(p) == m.running[th]
    && Distinct(p) && Chained(m.sw, p)
    && m.suspended[th] == Interior(p)
    && (forall t :: t in p <==> t in v.owner && v.owner[t] == th)
  }

  ghost predicate KindsOk(m: Mem, v: View, th: Thread)
    requires th in v.path
  {
    var p := v.path[th];
    && (forall i :: 0 <= i < |p| ==> p[i] in m.kind)
    && (forall i :: 0 <= i < |p| ==>
          m.kind[p[i]] == if i == 0 then ImplicitTask else if i == |p| - 1 then Running else TiedSuspended)
    && (forall i :: 0 <= i < |p| && (i == 0 || i < |p| - 1) ==> p[i] !in m.tree.untied)
  }

  ghost predicate ChainOk(m: Mem, v: View, th: Thread)
    requires th in v.chain && th in m.tree.implicit
  {
    var c := v.chain[th];
    && Distinct(c) && Chained(m.tied.links, c)
    && (th in m.tied.last <==> c != [])
    && (c != [] ==> m.tied.last[th] == Last(c))
    && (forall t :: t in c <==> t in v.owner && v.owner[t] == th && t !in m.tree.untied && t != m.tree.implicit[th])
  }

  /** Section 2.9.5 of OpenMP 4.5: each tied task descends from every tied task started before it. */
  ghost predicate Descending(creator: map<Task, Task>, c: seq<Task>) {
    forall i, j :: 0 <= i < j < |c| ==> Descends(creator, c[i], c[j])
  }

  ghost predicate FreshOk(m: Mem, v: View) {
    && (forall t :: t in v.owner ==> t in m.kind && v.owner[t] in m.tree.implicit)
    && (forall t :: t in m.kind && t !in v.owner ==> m.kind[t] == Waiting)
    && (forall t :: t in m.kind && t !in v.owner && t !in m.tree.untied ==> t !in m.tied.links.next && t !in m.tied.links.prev)
  }

  ghost predicate TreeOk(m: Mem) {
    && (forall t :: t in m.tree.parent ==> t in m.tree.creator && m.tree.creator[t] == m.tree.parent[t])
    && (forall t :: t in m.tree.ascending ==> Descends(m.tree.creator, m.tree.ascending[t], t))
    && (forall t :: t in m.tree.creator ==> m.tree.creator[t] < t < m.tree.nextId)
    && (forall t :: t in m.kind ==> t < m.tree.nextId)
    && (forall t :: t in m.tied.links.next || t in m.tied.links.prev ==> t < m.tree.nextId)
  }

  ghost predicate ThreadsOk(m: Mem, v: View) {
    && m.tree.implicit.Keys == m.running.Keys == m.suspended.Keys == v.path.Keys == v.chain.Keys
    && (forall th :: th in m.tree.implicit ==> m.tree.implicit[th] in v.owner && v.owner[m.tree.implicit[th]] == th)
  }

  ghost predicate ThreadOk(m: Mem, v: View, th: Thread) {
    && th in v.path && th in v.chain && th in m.tree.implicit && th in m.running && th in m.suspended
    && PathOk(m, v, th) && KindsOk(m, v, th) && ChainOk(m, v, th) && Descending(m.tree.creator, v.chain[th])
  }

  ghost predicate Inv(m: Mem, v: View) {
    && ThreadsOk(m, v) && FreshOk(m, v) && TreeOk(m)
    && (forall th :: th in m.tree.implicit ==> ThreadOk(m, v, th))
  }

  // ---------- What the invariant says ----------

  lemma {:induction false} DescendsTransitive(creator: map<Task, Task>, a: Task, b: Task, c: Task)
    requires Descends(creator, a, b) && Descends(creator, b, c)
    ensures Descends(creator, a, c)
    decreases c
  {
    if creator[c] != b {
      DescendsTransitive(creator, a, b, creator[c]);
    }
  }

  lemma {:induction false} DescendsGrows(creator: map<Task, Task>, t: Task, x: Task, a: Task, d: Task)
    requires Descends(creator, a, d) && t !in creator
    ensures Descends(creator[t := x], a, d)
    decreases d
  {
    if creator[d] != a {
      DescendsGrows(creator, t, x, a, creator[d]);
    }
  }

  lemma NoMembers<T>(c: seq<T>)
    ensures c == [] || exists t :: t in c
  {
    if c != [] { assert c[0] in c; }
  }

  /** Control is in the implicit task only when nothing tied is suspended on the thread. */
  lemma ImplicitRunsAlone(m: Mem, v: View, th: Thread)
    requires ThreadOk(m, v, th)
    ensures m.running[th] == m.tree.implicit[th] <==> |v.path[th]| == 1
    ensures m.running[th] == m.tree.implicit[th] ==> m.suspended[th] == {} && v.chain[th] == [] && th !in m.tied.last
  {
    var p, c := v.path[th], v.chain[th];
    if |p| > 1 {
      assert p[0] != p[|p| - 1];
    } else {
      assert p == [m.tree.implicit[th]];
      forall t ensures t !in c { assert t in c ==> t in p; }
      NoMembers(c);
    }
  }

  /** The task a completing task returns to finds exactly that task in switch_from_task; a task that is
      resumed by a switch finds NULL there. */
  lemma CompletionIsRecognised(m: Mem, v: View, th: Thread)
    requires ThreadOk(m, v, th)
    ensures m.running[th] !in m.sw.next
    ensures m.running[th] in m.sw.prev <==> m.running[th] != m.tree.implicit[th]
    ensures m.running[th] in m.sw.prev ==>
              var y := m.sw.prev[m.running[th]];
              y in m.sw.next && m.sw.next[y] == m.running[th] &&
              (y == m.tree.implicit[th] || y in m.suspended[th])
  {
    var p := v.path[th];
    ImplicitRunsAlone(m, v, th);
    Neighbours(m.sw, p, |p| - 1);
    if |p| > 1 {
      Neighbours(m.sw, p, |p| - 2);
      if |p| > 2 { assert p[|p| - 2] in Interior(p); }
    }
  }

  lemma Parenthood(m: Mem, n: Task)
    requires TreeOk(m) && n in m.tree.parent
    ensures Descends(m.tree.creator, m.tree.parent[n], n)
  {
  }

  lemma OfferedDescendsFromLast(m: Mem, th: Thread, n: Task, from: Source)
    requires TreeOk(m) && th in m.running && th in m.tied.last && Offered(m, th, n, from)
    ensures Descends(m.tree.creator, m.tied.last[th], n)
  {
    var last, x := m.tied.last[th], m.running[th];
    match from {
      case ChildOfLastTied => Parenthood(m, n);
      case ChildOfUntied => Parenthood(m, n); DescendsTransitive(m.tree.creator, last, x, n);
      case Taskwait =>
        Parenthood(m, n);
        if x in m.tree.untied { DescendsTransitive(m.tree.creator, last, x, n); }
      case Taskgroup =>
      case NothingTied =>
    }
  }

  /** Whatever scheduling point offers a fresh tied task, it descends from every task tied to the thread. */
  lemma OfferedDescends(m: Mem, v: View, th: Thread, n: Task, from: Source)
    requires TreeOk(m) && ThreadOk(m, v, th) && Offered(m, th, n, from)
    ensures forall i :: 0 <= i < |v.chain[th]| ==> Descends(m.tree.creator, v.chain[th][i], n)
  {
    var c := v.chain[th];
    if c != [] {
      OfferedDescendsFromLast(m, th, n, from);
      forall i | 0 <= i < |c|
        ensures Descends(m.tree.creator, c[i], n)
      {
        if i < |c| - 1 { DescendsTransitive(m.tree.creator, c[i], Last(c), n); }
      }
    }
  }

  // ---------- A switch, field by field ----------

  function IndexOf<T(==)>(s: seq<T>, x: T): (i: nat)
    requires x in s
    ensures i < |s| && s[i] == x
  {
    if s[0] == x then 0 else 1 + IndexOf(s[1..], x)
  }

  function Drop<T(==)>(s: seq<T>, x: T): seq<T> {
    if x in s then RemoveAt(s, IndexOf(s, x)) else s
  }

  /** The switch links after `n` takes over from `x`; a resumed `n` first leaves its place on the path. */
  function SwAfter(sw: Dll<Task>, x: Task, n: Task, resumed: bool, replace: bool): Dll<Task>
    requires replace ==> x in (if resumed then Unlink(sw, n) else sw).prev
  {
    var sw1 := if resumed then Unlink(sw, n) else sw;
    if replace then Replace(sw1, x, n) else Push(sw1, x, n)
  }

  function PathAfter(p: seq<Task>, n: Task, replace: bool): seq<Task>
    requires p != []
  {
    var q := Drop(p, n);
    (if replace && q != [] then q[..|q| - 1] else q) + [n]
  }

  predicate Resumed(m: Mem, n: Task) {
    n in m.kind && m.kind[n] == TiedSuspended
  }

  /** What a switch needs to be defined. */
  predicate CanSwitch(m: Mem, th: Thread, n: Task) {
    && th in m.running && th in m.suspended && n in m.kind && m.running[th] in m.kind && m.running[th] != n
    && (m.running[th] in m.tree.untied ==> m.running[th] in RunPre(m, th, n).sw.prev && !IsImplicit(m, m.running[th]))
  }

  lemma SwitchLinks(m: Mem, th: Thread, n: Task)
    requires CanSwitch(m, th, n)
    ensures var r, x := Switch(m, th, n), m.running[th];
      && r.sw == SwAfter(m.sw, x, n, Resumed(m, n), x in m.tree.untied)
      && r.tied == (if n in m.tree.untied then m.tied else InsertTied(m.tied, th, IsImplicit(m, x), n))
      && r.running == m.running[th := n]
      && r.tree == m.tree
  {
  }

  lemma SwitchKinds(m: Mem, th: Thread, n: Task)
    requires CanSwitch(m, th, n)
    ensures var r, x := Switch(m, th, n), m.running[th];
      && r.kind == (if IsImplicit(m, x) then m.kind[n := Running]
                    else m.kind[n := Running][x := if x in m.tree.untied then Waiting else TiedSuspended])
      && r.suspended == m.suspended[th := m.suspended[th] - (if Resumed(m, n) then {n} else {})
                                          + (if IsImplicit(m, x) || x in m.tree.untied then {} else {x})]
  {
    var x, s := m.running[th], m.suspended[th];
    assert s - {} == s && s + {} == s && s - {n} + {} == s - {n};
    assert m.suspended[th := s] == m.suspended;
    assert RunPre(m, th, n).suspended == m.suspended[th := s - (if Resumed(m, n) then {n} else {})];
  }

  // ---------- A switch keeps the path ----------

  lemma PathAfterAt(p: seq<Task>, n: Task)
    requires p != [] && Distinct(p) && Last(p) != n && p[0] != n
    ensures var q := Drop(p, n);
      && q != [] && Distinct(q) && n !in q && q[0] == p[0] && Last(q) == Last(p)
      && |q| == if n in p then |p| - 1 else |p|
  {
    if n in p {
      var k, q := IndexOf(p, n), Drop(p, n);
      assert 0 < k < |p| - 1;
      DropAt(p, k, 0);
      DropAt(p, k, |q| - 1);
      forall i, j | 0 <= i < j < |q| ensures q[i] != q[j] {
        DropAt(p, k, i);
        DropAt(p, k, j);
      }
      forall i | 0 <= i < |q| ensures q[i] != n { DropAt(p, k, i); }
    }
  }

  lemma DropAt(p: seq<Task>, k: nat, i: nat)
    requires k < |p| && i < |p| - 1
    ensures RemoveAt(p, k)[i] == p[if i < k then i else i + 1]
  {
  }

  lemma DropMembers(p: seq<Task>, n: Task, t: Task)
    requires Distinct(p)
    ensures t in Drop(p, n) <==> t in p && t != n
  {
    if n in p {
      var k, q := IndexOf(p, n), Drop(p, n);
      if t in p && t != n {
        var j := IndexOf(p, t);
        assert q[if j < k then j else j - 1] == t;
      }
    }
  }

  lemma ReplaceChained(sw: Dll<Task>, q: seq<Task>, n: Task)
    requires Distinct(q) && Chained(sw, q) && |q| > 1 && n !in q
    ensures Last(q) in sw.prev
    ensures Chained(Replace(sw, Last(q), n), q[..|q| - 1] + [n]) && Distinct(q[..|q| - 1] + [n])
  {
    var b, x := q[..|q| - 1], Last(q);
    Neighbours(sw, q, |q| - 1);
    CutChained(sw, q);
    PushChained(Cut(sw, Last(b)), b, n);
    var pushed := Push(sw, Last(b), n);
    assert pushed == Push(Cut(sw, Last(b)), Last(b), n);
    assert x !in b + [n];
    ChainedFrame(pushed, Replace(sw, x, n), b + [n]);
  }

  lemma ReplaceElsewhere(sw: Dll<Task>, x: Task, n: Task, o: seq<Task>)
    requires x in sw.prev && Chained(sw, o) && x !in o && n !in o && sw.prev[x] !in o
    ensures Chained(Replace(sw, x, n), o)
  {
    var pushed := Push(sw, sw.prev[x], n);
    PushElsewhere(sw, sw.prev[x], n, o);
    ChainedFrame(pushed, Replace(sw, x, n), o);
  }

  lemma SwAfterSelf(sw: Dll<Task>, p: seq<Task>, n: Task, replace: bool)
    requires p != [] && Distinct(p) && Chained(sw, p) && Last(p) != n && p[0] != n
    requires replace ==> |Drop(p, n)| > 1
    ensures replace ==> Last(p) in (if n in p then Unlink(sw, n) else sw).prev
    ensures Chained(SwAfter(sw, Last(p), n, n in p, replace), PathAfter(p, n, replace))
    ensures Distinct(PathAfter(p, n, replace))
  {
    var q := Drop(p, n);
    var sw1 := if n in p then Unlink(sw, n) else sw;
    PathAfterAt(p, n);
    if n in p { UnlinkChained(sw, p, IndexOf(p, n)); }
    if replace { ReplaceChained(sw1, q, n); } else { PushChained(sw1, q, n); }
  }

  lemma SwAfterElsewhere(sw: Dll<Task>, p: seq<Task>, n: Task, replace: bool, o: seq<Task>)
    requires p != [] && Distinct(p) && Chained(sw, p) && Last(p) != n && p[0] != n
    requires replace ==> |Drop(p, n)| > 1
    requires Chained(sw, o) && n !in o && forall t :: t in p ==> t !in o
    ensures replace ==> Last(p) in (if n in p then Unlink(sw, n) else sw).prev
    ensures Chained(SwAfter(sw, Last(p), n, n in p, replace), o)
  {
    var q, x := Drop(p, n), Last(p);
    var sw1 := if n in p then Unlink(sw, n) else sw;
    PathAfterAt(p, n);
    if n in p {
      forall k, l | 0 <= k < |p| && 0 <= l < |o| ensures p[k] != o[l] { assert p[k] in p && o[l] in o; }
      UnlinkElsewhere(sw, p, IndexOf(p, n), o);
      UnlinkChained(sw, p, IndexOf(p, n));
    }
    assert x in p;
    if replace {
      Neighbours(sw1, q, |q| - 1);
      DropMembers(p, n, q[|q| - 2]);
      ReplaceElsewhere(sw1, x, n, o);
    } else {
      PushElsewhere(sw1, x, n, o);
    }
  }

  lemma DropInterior(p: seq<Task>, n: Task)
    requires p != [] && Distinct(p) && Last(p) != n && p[0] != n
    ensures Interior(Drop(p, n)) == Interior(p) - {n}
  {
    PathAfterAt(p, n);
    var q := Drop(p, n);
    if n in p {
      var k := IndexOf(p, n);
      forall t | t in Interior(q) ensures t in Interior(p) && t != n {
        var i :| 0 < i < |q| - 1 && q[i] == t;
        var j := if i < k then i else i + 1;
        assert p[j] == t && 0 < j < |p| - 1;
        assert t in q;
      }
      forall t | t in Interior(p) && t != n ensures t in Interior(q) {
        var j :| 0 < j < |p| - 1 && p[j] == t;
        var i := if j < k then j else j - 1;
        assert q[i] == t && 0 < i < |q| - 1;
      }
    } else {
      forall t | t in Interior(p) ensures t != n { }
    }
  }

  lemma InteriorPush(q: seq<Task>, n: Task)
    requires q != []
    ensures Interior(q + [n]) == Interior(q) + (if |q| == 1 then {} else {Last(q)})
    ensures Interior(q[..|q| - 1] + [n]) == Interior(q)
  {
    var r := q + [n];
    forall t | t in Interior(r) ensures t in Interior(q) || (|q| > 1 && t == Last(q)) {
      var i :| 0 < i < |r| - 1 && r[i] == t;
      assert i < |q| - 1 ==> q[i] in Interior(q);
    }
    forall t | t in Interior(q) ensures t in Interior(r) {
      var i :| 0 < i < |q| - 1 && q[i] == t;
      assert r[i] in Interior(r);
    }
    if |q| > 1 { assert r[|q| - 1] in Interior(r); }
    var r' := q[..|q| - 1] + [n];
    forall i | 0 <= i < |q| - 1 ensures r'[i] == q[i] { }
  }

  lemma InteriorAfter(p: seq<Task>, n: Task, replace: bool)
    requires p != [] && Distinct(p) && Last(p) != n && p[0] != n
    ensures Interior(PathAfter(p, n, replace)) ==
            Interior(p) - {n} + (if replace || |p| == 1 then {} else {Last(p)})
  {
    PathAfterAt(p, n);
    DropInterior(p, n);
    InteriorPush(Drop(p, n), n);
    if n in p { assert |p| > 2 by { assert 0 < IndexOf(p, n) < |p| - 1; } }
  }

  lemma PathAfterMembers(p: seq<Task>, n: Task, replace: bool, t: Task)
    requires p != [] && Distinct(p) && Last(p) != n && p[0] != n
    ensures t in PathAfter(p, n, replace) <==> t == n || (t in p && !(replace && t == Last(p)))
  {
    PathAfterAt(p, n);
    DropMembers(p, n, t);
    var q := Drop(p, n);
    assert q == q[..|q| - 1] + [Last(q)];
    if t in q[..|q| - 1] { assert t != Last(q); }
  }

  // ---------- A switch keeps the invariant ----------

  function SwitchView(m: Mem, v: View, th: Thread, n: Task): View
    requires th in v.path && v.path[th] != [] && th in v.chain
  {
    var p, x := v.path[th], Last(v.path[th]);
    View(v.path[th := PathAfter(p, n, x in m.tree.untied)],
         if n in m.tree.untied || Resumed(m, n) then v.chain else v.chain[th := v.chain[th] + [n]],
         (if x in m.tree.untied then v.owner - {x} else v.owner)[n := th])
  }

  lemma OwnedKind(m: Mem, v: View, t: Task)
    requires Inv(m, v) && t in v.owner
    ensures t in m.kind && m.kind[t] != Waiting
  {
    var th := v.owner[t];
    assert ThreadOk(m, v, th);
    assert t in v.path[th];
    var i :| 0 <= i < |v.path[th]| && v.path[th][i] == t;
  }

  /** A task that waits is on no path. */
  lemma WaitingIsOut(m: Mem, v: View, n: Task)
    requires Inv(m, v) && n in m.kind && m.kind[n] == Waiting
    ensures n !in v.owner
  {
    if n in v.owner { OwnedKind(m, v, n); }
  }

  /** The facts about `th` and `n` that the steps of a switch rest on. */
  ghost predicate Ready(m: Mem, v: View, th: Thread, n: Task) {
    && ThreadOk(m, v, th) && MayRun(m, th, n)
    && var p := v.path[th];
       && p[0] != n && Last(p) != n
       && (Resumed(m, n) <==> n in p) && (Resumed(m, n) <==> n in v.owner)
       && (n in v.owner ==> v.owner[n] == th && n !in m.tree.untied)
       && (Last(p) in m.tree.untied ==> |Drop(p, n)| > 1)
       && (IsImplicit(m, Last(p)) <==> |p| == 1)
  }

  lemma MakeReady(m: Mem, v: View, th: Thread, n: Task)
    requires Inv(m, v) && th in m.tree.implicit && MayRun(m, th, n)
    ensures Ready(m, v, th, n)
  {
    assert ThreadOk(m, v, th);
    var p := v.path[th];
    if Resumed(m, n) {
      var i :| 0 < i < |p| - 1 && p[i] == n;
      assert p[0] != n && Last(p) != n && n in p && |p| > 2;
      PathAfterAt(p, n);
    } else {
      WaitingIsOut(m, v, n);
      assert n !in p && p[0] in p && Last(p) in p;
    }
  }

  lemma ReadyCanSwitch(m: Mem, v: View, th: Thread, n: Task)
    requires Ready(m, v, th, n)
    ensures CanSwitch(m, th, n)
  {
    var p := v.path[th];
    SwAfterSelf(m.sw, p, n, Last(p) in m.tree.untied);
  }

  lemma SwitchPathSelf(m: Mem, v: View, th: Thread, n: Task)
    requires Ready(m, v, th, n) && CanSwitch(m, th, n)
    ensures PathOk(Switch(m, th, n), SwitchView(m, v, th, n), th)
  {
    var p, r, w := v.path[th], Switch(m, th, n), SwitchView(m, v, th, n);
    var replace := Last(p) in m.tree.untied;
    SwitchLinks(m, th, n);
    SwitchKinds(m, th, n);
    SwAfterSelf(m.sw, p, n, replace);
    InteriorAfter(p, n, replace);
    PathAfterAt(p, n);
    assert w.path[th] == PathAfter(p, n, replace);
    assert r.suspended[th] == Interior(w.path[th]) by {
      if !Resumed(m, n) { assert n !in Interior(p); }
    }
    forall t ensures t in w.path[th] <==> t in w.owner && w.owner[t] == th {
      PathAfterMembers(p, n, replace, t);
    }
  }

  lemma SwitchKindsSelf(m: Mem, v: View, th: Thread, n: Task)
    requires Ready(m, v, th, n) && CanSwitch(m, th, n)
    ensures KindsOk(Switch(m, th, n), SwitchView(m, v, th, n), th)
  {
    var p, r, w := v.path[th], Switch(m, th, n), SwitchView(m, v, th, n);
    var replace := Last(p) in m.tree.untied;
    SwitchLinks(m, th, n);
    SwitchKinds(m, th, n);
    InteriorAfter(p, n, replace);
    PathAfterAt(p, n);
    var p' := PathAfter(p, n, replace);
    assert p'[0] == p[0] && Last(p') == n;
    forall i | 0 < i < |p'| - 1
      ensures p'[i] in r.kind && r.kind[p'[i]] == TiedSuspended && p'[i] !in m.tree.untied
    {
      assert p'[i] in Interior(p');
      if p'[i] in Interior(p) - {n} {
        var j :| 0 < j < |p| - 1 && p[j] == p'[i];
      }
    }
  }

  /** Starting a fresh tied task appends it; anything else leaves the tied list alone. */
  lemma InsertTiedSelf(t: TiedList, th: Thread, implicit: bool, c: seq<Task>, n: Task, isNew: bool)
    requires Distinct(c) && Chained(t.links, c)
    requires (th in t.last <==> c != []) && (c != [] ==> t.last[th] == Last(c))
    requires implicit ==> c == [] && isNew
    requires if isNew then n !in c && n !in t.links.next && n !in t.links.prev else n in c
    ensures var r := InsertTied(t, th, implicit, n);
      if isNew then Chained(r.links, c + [n]) && Distinct(c + [n]) && th in r.last && r.last[th] == n
      else r == t
  {
    if isNew && c != [] {
      PushChained(t.links, c, n);
      assert t.links.next[Last(c) := n] - {n} == t.links.next[Last(c) := n];
    } else if isNew {
      SingletonChained(t.links, n);
    } else {
      var i := IndexOf(c, n);
      Neighbours(t.links, c, i);
    }
  }

  lemma InsertTiedElsewhere(t: TiedList, th: Thread, implicit: bool, n: Task, o: Thread, c: seq<Task>)
    requires o != th && Chained(t.links, c) && n !in c && (th in t.last ==> t.last[th] !in c)
    ensures Chained(InsertTied(t, th, implicit, n).links, c)
    ensures o in InsertTied(t, th, implicit, n).last <==> o in t.last
    ensures o in t.last ==> InsertTied(t, th, implicit, n).last[o] == t.last[o]
  {
    ChainedFrame(t.links, InsertTied(t, th, implicit, n).links, c);
  }

  lemma SwitchChainSelf(m: Mem, v: View, th: Thread, n: Task)
    requires Ready(m, v, th, n) && CanSwitch(m, th, n) && FreshOk(m, v)
    ensures ChainOk(Switch(m, th, n), SwitchView(m, v, th, n), th)
  {
    var p, c, r, w := v.path[th], v.chain[th], Switch(m, th, n), SwitchView(m, v, th, n);
    SwitchLinks(m, th, n);
    ImplicitRunsAlone(m, v, th);
    if n !in m.tree.untied {
      InsertTiedSelf(m.tied, th, IsImplicit(m, Last(p)), c, n, !Resumed(m, n));
    }
    forall t ensures t in w.chain[th] <==>
                     t in w.owner && w.owner[t] == th && t !in m.tree.untied && t != m.tree.implicit[th] {
      assert t in v.chain[th] <==> t in v.owner && v.owner[t] == th && t !in m.tree.untied && t != m.tree.implicit[th];
    }
  }

  /** A switch on `th` as another thread `o` sees it. */
  lemma SwitchOther(m: Mem, v: View, th: Thread, n: Task, o: Thread)
    requires Ready(m, v, th, n) && CanSwitch(m, th, n) && ThreadOk(m, v, o) && o != th
    ensures ThreadOk(Switch(m, th, n), SwitchView(m, v, th, n), o)
  {
    var r, w := Switch(m, th, n), SwitchView(m, v, th, n);
    var p, q := v.path[th], v.path[o];
    SwitchLinks(m, th, n);
    SwitchKinds(m, th, n);
    assert n !in q;
    SwAfterElsewhere(m.sw, p, n, Last(p) in m.tree.untied, q);
    assert Last(p) in p && Last(p) !in q;
    forall i | 0 <= i < |q| ensures q[i] != n && q[i] != Last(p) { assert q[i] in q; }
    SwitchOtherChain(m, v, th, n, o);
  }

  lemma SwitchOtherChain(m: Mem, v: View, th: Thread, n: Task, o: Thread)
    requires Ready(m, v, th, n) && CanSwitch(m, th, n) && ThreadOk(m, v, o) && o != th
    ensures o in Switch(m, th, n).tree.implicit && o in SwitchView(m, v, th, n).chain
    ensures ChainOk(Switch(m, th, n), SwitchView(m, v, th, n), o)
  {
    var p, d := v.path[th], v.chain[o];
    SwitchLinks(m, th, n);
    assert n !in d;
    if th in m.tied.last {
      assert Last(v.chain[th]) in v.chain[th];
      assert m.tied.last[th] !in d;
    }
    InsertTiedElsewhere(m.tied, th, IsImplicit(m, Last(p)), n, o, d);
    assert Last(p) in p;
  }

  lemma SwitchDescending(m: Mem, v: View, th: Thread, n: Task)
    requires Ready(m, v, th, n) && TreeOk(m)
    ensures Descending(m.tree.creator, SwitchView(m, v, th, n).chain[th])
  {
    if n !in m.tree.untied && !Resumed(m, n) {
      var from :| Offered(m, th, n, from);
      OfferedDescends(m, v, th, n, from);
    }
  }

  lemma InsertTiedKeys(t: TiedList, th: Thread, implicit: bool, n: Task, k: Task)
    requires k != n && (th in t.last ==> k != t.last[th])
    ensures var r := InsertTied(t, th, implicit, n).links;
      (k in r.next ==> k in t.links.next) && (k in r.prev ==> k in t.links.prev)
  {
  }

  lemma SwitchFreshLinks(m: Mem, v: View, th: Thread, n: Task, k: Task)
    requires Ready(m, v, th, n) && CanSwitch(m, th, n) && FreshOk(m, v)
    requires k in m.kind && k !in m.tree.untied && k != n && k !in v.owner
    ensures k !in Switch(m, th, n).tied.links.next && k !in Switch(m, th, n).tied.links.prev
  {
    SwitchLinks(m, th, n);
    var c := v.chain[th];
    assert c != [] ==> Last(c) in c;
    InsertTiedKeys(m.tied, th, IsImplicit(m, m.running[th]), n, k);
  }

  lemma SwitchFreshKinds(m: Mem, v: View, th: Thread, n: Task)
    requires FreshOk(m, v) && CanSwitch(m, th, n) && th in m.tree.implicit
    requires th in v.path && v.path[th] != [] && th in v.chain && Last(v.path[th]) == m.running[th]
    requires m.running[th] in v.owner
    ensures var r, w := Switch(m, th, n), SwitchView(m, v, th, n);
      && (forall t :: t in w.owner ==> t in r.kind && w.owner[t] in r.tree.implicit)
      && (forall t :: t in r.kind && t !in w.owner ==> r.kind[t] == Waiting)
  {
    SwitchLinks(m, th, n);
    SwitchKinds(m, th, n);
  }

  lemma SwitchFresh(m: Mem, v: View, th: Thread, n: Task)
    requires Ready(m, v, th, n) && CanSwitch(m, th, n) && FreshOk(m, v)
    ensures FreshOk(Switch(m, th, n), SwitchView(m, v, th, n))
  {
    var r, w := Switch(m, th, n), SwitchView(m, v, th, n);
    assert Last(v.path[th]) in v.path[th];
    SwitchFreshKinds(m, v, th, n);
    SwitchLinks(m, th, n);
    SwitchKinds(m, th, n);
    forall t | t in r.kind && t !in w.owner && t !in m.tree.untied
      ensures t !in r.tied.links.next && t !in r.tied.links.prev
    {
      SwitchFreshLinks(m, v, th, n, t);
    }
  }

  /** Suspending the running task for any task that may run keeps paths, chains and flags together. */
  lemma SwitchKeeps(m: Mem, v: View, th: Thread, n: Task)
    requires Inv(m, v) && th in m.tree.implicit && MayRun(m, th, n)
    ensures Ready(m, v, th, n) && CanSwitch(m, th, n)
    ensures Inv(Switch(m, th, n), SwitchView(m, v, th, n))
  {
    MakeReady(m, v, th, n);
    ReadyCanSwitch(m, v, th, n);
    var r, w := Switch(m, th, n), SwitchView(m, v, th, n);
    SwitchFresh(m, v, th, n);
    ImplicitTied(m, v);
    SwitchThreads(m, v, th, n);
    SwitchTree(m, v, th, n);
    forall o | o in m.tree.implicit
      ensures ThreadOk(r, w, o)
    {
      if o == th { SwitchSelf(m, v, th, n); } else { SwitchOther(m, v, th, n, o); }
    }
  }

  lemma SwitchSelf(m: Mem, v: View, th: Thread, n: Task)
    requires Ready(m, v, th, n) && CanSwitch(m, th, n) && FreshOk(m, v) && TreeOk(m)
    ensures ThreadOk(Switch(m, th, n), SwitchView(m, v, th, n), th)
  {
    SwitchPathSelf(m, v, th, n);
    SwitchKindsSelf(m, v, th, n);
    SwitchChainSelf(m, v, th, n);
    SwitchDescending(m, v, th, n);
  }

  lemma ImplicitTied(m: Mem, v: View)
    requires Inv(m, v)
    ensures forall o :: o in m.tree.implicit ==>
              m.tree.implicit[o] !in m.tree.untied && m.tree.implicit[o] in v.owner && v.owner[m.tree.implicit[o]] == o
  {
    forall o | o in m.tree.implicit
      ensures m.tree.implicit[o] !in m.tree.untied
    {
      assert ThreadOk(m, v, o);
    }
  }

  lemma SwitchThreads(m: Mem, v: View, th: Thread, n: Task)
    requires ThreadsOk(m, v) && CanSwitch(m, th, n) && th in v.path && v.path[th] != []
    requires (n in v.owner ==> v.owner[n] == th) && n != m.tree.implicit[th]
    requires forall o :: o in m.tree.implicit ==> m.tree.implicit[o] !in m.tree.untied
    ensures ThreadsOk(Switch(m, th, n), SwitchView(m, v, th, n))
  {
    SwitchLinks(m, th, n);
    SwitchKinds(m, th, n);
  }

  lemma InsertTiedBound(t: TiedList, th: Thread, implicit: bool, n: Task, bound: nat)
    requires n < bound && (th in t.last ==> t.last[th] < bound)
    requires forall x :: x in t.links.next || x in t.links.prev ==> x < bound
    ensures var r := InsertTied(t, th, implicit, n).links;
      forall x :: x in r.next || x in r.prev ==> x < bound
  {
  }

  lemma SwitchTree(m: Mem, v: View, th: Thread, n: Task)
    requires TreeOk(m) && FreshOk(m, v) && Ready(m, v, th, n) && CanSwitch(m, th, n)
    ensures TreeOk(Switch(m, th, n))
  {
    var r, c, x := Switch(m, th, n), v.chain[th], m.running[th];
    SwitchLinks(m, th, n);
    SwitchKinds(m, th, n);
    assert c != [] ==> Last(c) in c && Last(c) in m.kind;
    InsertTiedBound(m.tied, th, IsImplicit(m, x), n, m.tree.nextId);
    assert forall t :: t in r.kind ==> t in m.kind;
  }

  // ---------- Completion keeps the invariant ----------

  function CompleteView(m: Mem, v: View, th: Thread): View
    requires th in v.path && v.path[th] != [] && th in v.chain
  {
    var p, x := v.path[th], Last(v.path[th]);
    View(v.path[th := p[..|p| - 1]],
         if x in m.tree.untied then v.chain else v.chain[th := Drop(v.chain[th], x)],
         v.owner - {x})
  }

  /** An explicit task runs on `th`, so it can complete. */
  predicate CanComplete(m: Mem, th: Thread) {
    && th in m.running && th in m.suspended && th in m.tree.implicit
    && m.running[th] != m.tree.implicit[th] && m.running[th] in m.sw.prev
  }

  lemma CompleteLinks(m: Mem, th: Thread)
    requires CanComplete(m, th)
    ensures var r, x := Complete(m, th), m.running[th];
      var y := m.sw.prev[x];
      && r.sw == Cut(m.sw, y) && r.running == m.running[th := y] && r.tree == ClearParent(m.tree, x)
      && r.tied == (if x in m.tree.untied then m.tied else RemoveTied(m.tied, th, IsImplicit(m, y), x))
  {
  }

  lemma CompleteKinds(m: Mem, th: Thread)
    requires CanComplete(m, th)
    ensures var r, x := Complete(m, th), m.running[th];
      var y := m.sw.prev[x];
      if Resumed(m, y) then r.kind == (m.kind - {x})[y := Running]
                            && r.suspended == m.suspended[th := m.suspended[th] - {y}]
      else r.kind == m.kind - {x} && r.suspended == m.suspended
  {
  }

  /** The task below the completing one. */
  lemma Below(m: Mem, v: View, th: Thread)
    requires ThreadOk(m, v, th) && m.running[th] != m.tree.implicit[th]
    ensures var p := v.path[th];
      && |p| > 1 && CanComplete(m, th) && m.sw.prev[m.running[th]] == p[|p| - 2] && p[|p| - 2] != Last(p)
      && (if |p| == 2 then IsImplicit(m, p[0]) else Resumed(m, p[|p| - 2]))
  {
    ImplicitRunsAlone(m, v, th);
    Neighbours(m.sw, v.path[th], |v.path[th]| - 1);
  }

  lemma ButLastMembers(p: seq<Task>, t: Task)
    requires p != [] && Distinct(p)
    ensures t in p[..|p| - 1] <==> t in p && t != Last(p)
  {
    assert p == p[..|p| - 1] + [Last(p)];
  }

  lemma ButLastInterior(p: seq<Task>)
    requires |p| > 1 && Distinct(p)
    ensures Interior(p[..|p| - 1]) == Interior(p) - {p[|p| - 2]}
  {
    var q := p[..|p| - 1];
    forall t | t in Interior(p) && t != p[|p| - 2] ensures t in Interior(q) {
      var i :| 0 < i < |p| - 1 && p[i] == t;
      assert q[i] == t;
    }
  }

  lemma CompletePathSelf(m: Mem, v: View, th: Thread)
    requires ThreadOk(m, v, th) && m.running[th] != m.tree.implicit[th]
    ensures CanComplete(m, th) && PathOk(Complete(m, th), CompleteView(m, v, th), th)
  {
    var p, r, w := v.path[th], Complete2(m, v, th), CompleteView(m, v, th);
    var q := p[..|p| - 1];
    CutChained(m.sw, p);
    ButLastInterior(p);
    if |p| == 2 { assert p[0] !in Interior(p); }
    forall t ensures t in q <==> t in w.owner && w.owner[t] == th {
      ButLastMembers(p, t);
    }
  }

  /** `Complete` with the facts every proof about it needs. */
  ghost function Complete2(m: Mem, v: View, th: Thread): (r: Mem)
    requires ThreadOk(m, v, th) && m.running[th] != m.tree.implicit[th]
    ensures CanComplete(m, th) && r == Complete(m, th)
    ensures var p := v.path[th];
      && |p| > 1 && m.sw.prev[m.running[th]] == p[|p| - 2] && p[|p| - 2] != Last(p)
      && (if |p| == 2 then IsImplicit(m, p[0]) else Resumed(m, p[|p| - 2]))
      && r.sw == Cut(m.sw, p[|p| - 2]) && r.running == m.running[th := p[|p| - 2]]
      && r.tied == (if Last(p) in m.tree.untied then m.tied else RemoveTied(m.tied, th, |p| == 2, Last(p)))
      && r.kind == (if |p| == 2 then m.kind - {Last(p)} else (m.kind - {Last(p)})[p[|p| - 2] := Running])
      && r.suspended == (if |p| == 2 then m.suspended else m.suspended[th := m.suspended[th] - {p[|p| - 2]}])
      && r.tree == ClearParent(m.tree, Last(p))
  {
    Below(m, v, th);
    CompleteLinks(m, th);
    CompleteKinds(m, th);
    Complete(m, th)
  }

  lemma CompleteKindsSelf(m: Mem, v: View, th: Thread)
    requires ThreadOk(m, v, th) && m.running[th] != m.tree.implicit[th]
    ensures CanComplete(m, th) && KindsOk(Complete(m, th), CompleteView(m, v, th), th)
  {
    var p, r := v.path[th], Complete2(m, v, th);
    forall i | 0 <= i < |p| - 1 ensures p[i] != Last(p) { }
  }

  lemma RemoveTiedSelf(t: TiedList, th: Thread, implicit: bool, c: seq<Task>, x: Task)
    requires Distinct(c) && Chained(t.links, c) && x in c
    requires th in t.last && t.last[th] == Last(c)
    requires implicit ==> |c| == 1
    ensures var r, d := RemoveTied(t, th, implicit, x), Drop(c, x);
      && Chained(r.links, d) && Distinct(d) && (th in r.last <==> d != []) && (d != [] ==> r.last[th] == Last(d))
  {
    var i := IndexOf(c, x);
    Neighbours(t.links, c, i);
    if x == Last(c) {
      assert i == |c| - 1;
      assert Drop(c, x) == c[..|c| - 1];
      if |c| > 1 { CutChained(t.links, c); }
    } else {
      UnlinkChained(t.links, c, i);
    }
  }

  lemma RemoveTiedElsewhere(t: TiedList, th: Thread, implicit: bool, c: seq<Task>, x: Task, o: Thread, d: seq<Task>)
    requires o != th && Distinct(c) && Chained(t.links, c) && x in c && Chained(t.links, d)
    requires forall k, l :: 0 <= k < |c| && 0 <= l < |d| ==> c[k] != d[l]
    ensures var r := RemoveTied(t, th, implicit, x);
      Chained(r.links, d) && (o in r.last <==> o in t.last) && (o in t.last ==> r.last[o] == t.last[o])
  {
    var i := IndexOf(c, x);
    Neighbours(t.links, c, i);
    if x in t.links.prev {
      assert t.links.prev[x] !in d;
      CutElsewhere(t.links, t.links.prev[x], d);
    }
    UnlinkElsewhere(t.links, c, i, d);
  }

  lemma RemoveTiedKeys(t: TiedList, th: Thread, implicit: bool, c: seq<Task>, x: Task, k: Task)
    requires Distinct(c) && Chained(t.links, c) && x in c && k !in c
    ensures var r := RemoveTied(t, th, implicit, x).links;
      (k in r.next ==> k in t.links.next) && (k in r.prev ==> k in t.links.prev)
  {
    Neighbours(t.links, c, IndexOf(c, x));
  }

  lemma CompleteChainSelf(m: Mem, v: View, th: Thread)
    requires ThreadOk(m, v, th) && m.running[th] != m.tree.implicit[th]
    ensures CanComplete(m, th) && ChainOk(Complete(m, th), CompleteView(m, v, th), th)
  {
    var p, c, r, w := v.path[th], v.chain[th], Complete2(m, v, th), CompleteView(m, v, th);
    var x := Last(p);
    if x !in m.tree.untied {
      assert x in p && x in c;
      if |p| == 2 { OnlyTied(m, v, th); }
      RemoveTiedSelf(m.tied, th, |p| == 2, c, x);
      forall t { DropMembers(c, x, t); }
    }
  }

  lemma TwoDiffer(c: seq<Task>)
    requires |c| > 1 && Distinct(c)
    ensures exists t, u :: t in c && u in c && t != u
  {
    assert c[0] in c && c[1] in c && c[0] != c[1];
  }

  /** With nothing suspended below it, the running task is the only tied one. */
  lemma OnlyTied(m: Mem, v: View, th: Thread)
    requires ThreadOk(m, v, th) && |v.path[th]| == 2
    ensures |v.chain[th]| <= 1
  {
    var p, c := v.path[th], v.chain[th];
    forall t | t in c ensures t == p[1] { assert t in p; }
    if |c| > 1 { TwoDiffer(c); }
  }

  lemma CompleteOther(m: Mem, v: View, th: Thread, o: Thread)
    requires ThreadOk(m, v, th) && m.running[th] != m.tree.implicit[th] && ThreadOk(m, v, o) && o != th
    ensures CanComplete(m, th) && ThreadOk(Complete(m, th), CompleteView(m, v, th), o)
  {
    var p, q, r := v.path[th], v.path[o], Complete2(m, v, th);
    assert p[|p| - 2] in p && Last(p) in p;
    CutElsewhere(m.sw, p[|p| - 2], q);
    forall i | 0 <= i < |q| ensures q[i] != Last(p) && q[i] != p[|p| - 2] { assert q[i] in q; }
    CompleteOtherChain(m, v, th, o);
  }

  lemma CompleteOtherChain(m: Mem, v: View, th: Thread, o: Thread)
    requires ThreadOk(m, v, th) && m.running[th] != m.tree.implicit[th] && ThreadOk(m, v, o) && o != th
    ensures CanComplete(m, th) && o in Complete(m, th).tree.implicit && o in CompleteView(m, v, th).chain
    ensures ChainOk(Complete(m, th), CompleteView(m, v, th), o)
  {
    var p, c, d, r := v.path[th], v.chain[th], v.chain[o], Complete2(m, v, th);
    assert Last(p) in p;
    if Last(p) !in m.tree.untied {
      assert Last(p) in c;
      forall k, l | 0 <= k < |c| && 0 <= l < |d| ensures c[k] != d[l] { assert c[k] in c && d[l] in d; }
      RemoveTiedElsewhere(m.tied, th, |p| == 2, c, Last(p), o, d);
    }
  }

  lemma CompleteFresh(m: Mem, v: View, th: Thread)
    requires ThreadOk(m, v, th) && m.running[th] != m.tree.implicit[th] && FreshOk(m, v)
    ensures CanComplete(m, th) && FreshOk(Complete(m, th), CompleteView(m, v, th))
  {
    var p, c, r, w := v.path[th], v.chain[th], Complete2(m, v, th), CompleteView(m, v, th);
    var x := Last(p);
    assert x in p && p[|p| - 2] in p;
    forall t | t in r.kind && t !in w.owner && t !in m.tree.untied
      ensures t !in r.tied.links.next && t !in r.tied.links.prev
    {
      assert t !in v.owner && t !in c;
      if x !in m.tree.untied {
        assert x in c;
        RemoveTiedKeys(m.tied, th, |p| == 2, c, x, t);
      }
    }
  }

  lemma ClearParentTree(tr: Tree, x: Task)
    requires forall t :: t in tr.parent ==> t in tr.creator && tr.creator[t] == tr.parent[t]
    requires forall t :: t in tr.ascending ==> Descends(tr.creator, tr.ascending[t], t)
    ensures var r := ClearParent(tr, x);
      && (forall t :: t in r.parent ==> t in tr.creator && tr.creator[t] == r.parent[t])
      && (forall t :: t in r.ascending ==> Descends(tr.creator, r.ascending[t], t))
  {
    var r := ClearParent(tr, x);
    forall t | t in r.ascending
      ensures Descends(tr.creator, r.ascending[t], t)
    {
      if x in tr.ascending && tr.ascending[t] == x {
        DescendsTransitive(tr.creator, tr.ascending[x], x, t);
      }
    }
  }

  lemma CompleteTree(m: Mem, v: View, th: Thread)
    requires ThreadOk(m, v, th) && m.running[th] != m.tree.implicit[th] && TreeOk(m) && FreshOk(m, v)
    ensures CanComplete(m, th) && TreeOk(Complete(m, th))
  {
    var p, c, r := v.path[th], v.chain[th], Complete2(m, v, th);
    var x := Last(p);
    assert x in p && p[|p| - 2] in p;
    ClearParentTree(m.tree, x);
    forall k | k in r.tied.links.next || k in r.tied.links.prev
      ensures k < m.tree.nextId
    {
      if x !in m.tree.untied && k !in c {
        assert x in c;
        RemoveTiedKeys(m.tied, th, |p| == 2, c, x, k);
      }
    }
  }

  lemma CompleteThreads(m: Mem, v: View, th: Thread)
    requires ThreadsOk(m, v) && ThreadOk(m, v, th) && m.running[th] != m.tree.implicit[th]
    ensures CanComplete(m, th) && ThreadsOk(Complete(m, th), CompleteView(m, v, th))
  {
    var p, r := v.path[th], Complete2(m, v, th);
    assert Last(p) in p;
  }

  lemma CompleteDescending(m: Mem, v: View, th: Thread)
    requires ThreadOk(m, v, th)
    ensures Descending(m.tree.creator, CompleteView(m, v, th).chain[th])
  {
  }

  /** Returning to the suspended task below keeps paths, chains and flags together, even when the
      completed task leaves the tied list from the middle. */
  lemma CompleteKeeps(m: Mem, v: View, th: Thread)
    requires Inv(m, v) && th in m.tree.implicit && m.running[th] != m.tree.implicit[th]
    ensures ThreadOk(m, v, th) && CanComplete(m, th) && Inv(Complete(m, th), CompleteView(m, v, th))
  {
    assert ThreadOk(m, v, th);
    CompleteFresh(m, v, th);
    CompleteTree(m, v, th);
    CompleteThreads(m, v, th);
    forall o | o in m.tree.implicit
      ensures ThreadOk(Complete(m, th), CompleteView(m, v, th), o)
    {
      if o == th { CompleteSelf(m, v, th); } else { CompleteOther(m, v, th, o); }
    }
  }

  lemma CompleteSelf(m: Mem, v: View, th: Thread)
    requires ThreadOk(m, v, th) && m.running[th] != m.tree.implicit[th]
    ensures CanComplete(m, th) && ThreadOk(Complete(m, th), CompleteView(m, v, th), th)
  {
    CompletePathSelf(m, v, th);
    CompleteKindsSelf(m, v, th);
    CompleteChainSelf(m, v, th);
    CompleteDescending(m, v, th);
  }

  // ---------- Creation keeps the invariant ----------

  lemma CreatedTree(m: Mem, th: Thread, isUntied: bool)
    requires TreeOk(m) && th in m.running && m.running[th] < m.tree.nextId
    ensures TreeOk(CreateTask(m, th, isUntied))
  {
    var r, x, t := CreateTask(m, th, isUntied), m.running[th], m.tree.nextId;
    assert t !in m.tree.creator by { assert t in m.tree.creator ==> t < m.tree.nextId; }
    forall k | k in r.tree.ascending
      ensures Descends(r.tree.creator, r.tree.ascending[k], k)
    {
      if k != t {
        DescendsGrows(m.tree.creator, t, x, m.tree.ascending[k], k);
      } else if r.tree.ascending[t] != x && x in m.tree.ascending {
        DescendsGrows(m.tree.creator, t, x, m.tree.ascending[x], x);
      }
    }
  }

  lemma CreateOther(m: Mem, v: View, th: Thread, isUntied: bool, o: Thread)
    requires ThreadOk(m, v, o) && th in m.running && m.tree.nextId !in m.kind && m.tree.nextId !in m.tree.creator
    ensures ThreadOk(CreateTask(m, th, isUntied), v, o)
  {
    var r, t, c := CreateTask(m, th, isUntied), m.tree.nextId, v.chain[o];
    forall k | k in v.path[o] ensures k != t {
      var i :| 0 <= i < |v.path[o]| && v.path[o][i] == k;
    }
    forall k | k in c ensures k != t { assert k in v.path[o]; }
    assert PathOk(r, v, o) && KindsOk(r, v, o);
    forall i, j | 0 <= i < j < |c|
      ensures Descends(r.tree.creator, c[i], c[j])
    {
      DescendsGrows(m.tree.creator, t, m.running[th], c[i], c[j]);
    }
  }

  lemma CreateRest(m: Mem, v: View, th: Thread, isUntied: bool)
    requires ThreadsOk(m, v) && FreshOk(m, v) && TreeOk(m) && th in m.running
    requires m.tree.nextId !in m.kind
    ensures ThreadsOk(CreateTask(m, th, isUntied), v) && FreshOk(CreateTask(m, th, isUntied), v)
  {
    var t := m.tree.nextId;
    assert t !in m.tied.links.next && t !in m.tied.links.prev by {
      assert t in m.tied.links.next || t in m.tied.links.prev ==> t < m.tree.nextId;
    }
  }

  lemma NextIdNew(m: Mem)
    requires TreeOk(m)
    ensures m.tree.nextId !in m.kind && m.tree.nextId !in m.tree.creator
  {
    var t := m.tree.nextId;
    assert t in m.kind ==> t < m.tree.nextId;
    assert t in m.tree.creator ==> t < m.tree.nextId;
  }

  lemma RunningKnown(m: Mem, v: View, th: Thread)
    requires ThreadOk(m, v, th)
    ensures m.running[th] in m.kind
  {
  }

  lemma CreateKeeps(m: Mem, v: View, th: Thread, isUntied: bool)
    requires Inv(m, v) && th in m.tree.implicit
    ensures th in m.running && Inv(CreateTask(m, th, isUntied), v)
  {
    assert ThreadOk(m, v, th);
    NextIdNew(m);
    RunningKnown(m, v, th);
    CreatedTree(m, th, isUntied);
    CreateRest(m, v, th, isUntied);
    forall o | o in m.tree.implicit
      ensures ThreadOk(CreateTask(m, th, isUntied), v, o)
    {
      CreateOther(m, v, th, isUntied, o);
    }
  }

  // ---------- The ascending tied task ----------

  /** `a` is a tied explicit task that created `t`, directly or not. */
  ghost predicate TiedAncestor(tr: Tree, a: Task, t: Task) {
    Descends(tr.creator, a, t) && a !in tr.untied && a !in tr.implicit.Values
  }

  /** ascending_tied_task of `t` is a tied ancestor with no existing one below it; when it is NULL, no tied
      ancestor exists any more. */
  ghost predicate AscendingAt(m: Mem, t: Task) {
    if t in m.tree.ascending then
      && TiedAncestor(m.tree, m.tree.ascending[t], t)
      && forall b :: TiedAncestor(m.tree, b, t) && Descends(m.tree.creator, m.tree.ascending[t], b) ==> b !in m.kind
    else forall b :: TiedAncestor(m.tree, b, t) ==> b !in m.kind
  }

  /** The parent pointer is the creator as long as that exists, and NULL afterwards. */
  ghost predicate ParentAt(m: Mem, t: Task) {
    && (t in m.tree.parent <==> t in m.tree.creator && m.tree.creator[t] in m.kind)
    && (t in m.tree.parent ==> m.tree.parent[t] == m.tree.creator[t])
  }

  ghost predicate FamilyOk(m: Mem) {
    && (forall t :: t in m.tree.creator ==> m.tree.creator[t] < t < m.tree.nextId)
    && (forall t :: t in m.kind ==> t < m.tree.nextId)
    && (forall o :: o in m.tree.implicit ==> m.tree.implicit[o] in m.kind && m.tree.implicit[o] !in m.tree.creator)
    && (forall t :: AscendingAt(m, t)) && (forall t :: ParentAt(m, t))
  }

  lemma {:induction false} DescendsTotal(creator: map<Task, Task>, a: Task, b: Task, t: Task)
    requires Descends(creator, a, t) && Descends(creator, b, t)
    ensures a == b || Descends(creator, a, b) || Descends(creator, b, a)
    decreases t
  {
    if creator[t] != a && creator[t] != b {
      DescendsTotal(creator, a, b, creator[t]);
    }
  }

  lemma {:induction false} DescendsLess(creator: map<Task, Task>, a: Task, t: Task)
    requires Descends(creator, a, t)
    ensures a < t
    decreases t
  {
    if creator[t] != a {
      DescendsLess(creator, a, creator[t]);
    }
  }

  /** A new task changes the descent of no other. */
  lemma {:induction false} DescendsOld(creator: map<Task, Task>, t: Task, x: Task, a: Task, d: Task)
    requires t !in creator && d < t
    ensures Descends(creator[t := x], a, d) <==> Descends(creator, a, d)
    decreases d
  {
    if d in creator && creator[d] < d {
      DescendsOld(creator, t, x, a, creator[d]);
    }
  }

  lemma DescendsNew(creator: map<Task, Task>, t: Task, x: Task, a: Task)
    requires t !in creator && x < t
    ensures Descends(creator[t := x], a, t) <==> a == x || Descends(creator, a, x)
  {
    DescendsOld(creator, t, x, a, x);
  }

  // ---------- Whole runs ----------

  function FirstIds(n: nat): (r: set<nat>)
    ensures forall x: nat :: x in r <==> x < n
  {
    if n == 0 then {} else FirstIds(n - 1) + {n - 1}
  }

  /** A team of `n` threads at the start of a parallel region: only the implicit tasks exist. */
  function Start(n: nat): Mem {
    var ids := FirstIds(n);
    Mem(Dll(map[], map[]), TiedList(Dll(map[], map[]), map[]),
        (map t | t in ids :: ImplicitTask), (map th | th in ids :: th), (map th | th in ids :: {}),
        Tree((map th | th in ids :: th), {}, map[], map[], map[], n))
  }

  function StartView(n: nat): View {
    View((map th | th in FirstIds(n) :: [th]), (map th | th in FirstIds(n) :: []), (map t | t in FirstIds(n) :: t))
  }

  lemma StartGood(n: nat)
    ensures Inv(Start(n), StartView(n))
  {
  }

  datatype Op = SwitchOp(th: Thread, to: Task) | CompleteOp(th: Thread) | CreateOp(th: Thread, isUntied: bool)

  ghost predicate Step(m: Mem, op: Op, r: Mem) {
    match op
    case SwitchOp(th, n) => th in m.tree.implicit && MayRun(m, th, n) && CanSwitch(m, th, n) && r == Switch(m, th, n)
    case CompleteOp(th) => CanComplete(m, th) && r == Complete(m, th)
    case CreateOp(th, isUntied) => th in m.tree.implicit && th in m.running && r == CreateTask(m, th, isUntied)
  }

  ghost predicate Run(ms: seq<Mem>, ops: seq<Op>) {
    && |ms| == |ops| + 1
    && forall i :: 0 <= i < |ops| ==> Step(ms[i], ops[i], ms[i + 1])
  }

  lemma StepKeeps(m: Mem, op: Op, r: Mem, v: View) returns (w: View)
    requires Inv(m, v) && Step(m, op, r)
    ensures Inv(r, w)
  {
    match op {
      case SwitchOp(th, n) => SwitchKeeps(m, v, th, n); w := SwitchView(m, v, th, n);
      case CompleteOp(th) => CompleteKeeps(m, v, th); w := CompleteView(m, v, th);
      case CreateOp(th, isUntied) => CreateKeeps(m, v, th, isUntied); w := v;
    }
  }

  lemma {:induction false} RunGood(ms: seq<Mem>, ops: seq<Op>, i: nat) returns (v: View)
    requires Run(ms, ops) && i < |ms| && (exists u :: Inv(ms[0], u))
    ensures Inv(ms[i], v)
  {
    if i == 0 {
      v :| Inv(ms[0], v);
    } else {
      var u := RunGood(ms, ops, i - 1);
      v := StepKeeps(ms[i - 1], ops[i - 1], ms[i], u);
    }
  }

  lemma FamilyBounds(m: Mem, t: Task)
    requires FamilyOk(m) && t >= m.tree.nextId
    ensures t !in m.tree.creator && t !in m.tree.ascending && t !in m.tree.parent && t !in m.kind
  {
    assert AscendingAt(m, t) && ParentAt(m, t);
  }

  /** Creation as the other tasks see it. */
  lemma CreatedOthers(m: Mem, th: Thread, isUntied: bool, d: Task)
    requires FamilyOk(m) && th in m.running && m.running[th] in m.kind && d != m.tree.nextId
    ensures AscendingAt(CreateTask(m, th, isUntied), d) && ParentAt(CreateTask(m, th, isUntied), d)
  {
    var r, t, x := CreateTask(m, th, isUntied), m.tree.nextId, m.running[th];
    FamilyBounds(m, t);
    assert AscendingAt(m, d) && ParentAt(m, d);
    if d < t {
      forall a ensures Descends(r.tree.creator, a, d) <==> Descends(m.tree.creator, a, d) {
        DescendsOld(m.tree.creator, t, x, a, d);
      }
      forall b: Task | Descends(m.tree.creator, b, d)
        ensures b < d
        ensures forall a :: Descends(r.tree.creator, a, b) <==> Descends(m.tree.creator, a, b)
      {
        DescendsLess(m.tree.creator, b, d);
        forall a ensures Descends(r.tree.creator, a, b) <==> Descends(m.tree.creator, a, b) {
          DescendsOld(m.tree.creator, t, x, a, b);
        }
      }
    } else {
      FamilyBounds(m, d);
    }
  }

  /** The new task gets its creator, if that is tied, and else what its creator has. */
  lemma CreatedAscends(m: Mem, th: Thread, isUntied: bool)
    requires FamilyOk(m) && th in m.running && m.running[th] in m.kind
    requires IsImplicit(m, m.running[th]) <==> m.running[th] in m.tree.implicit.Values
    ensures AscendingAt(CreateTask(m, th, isUntied), m.tree.nextId)
  {
    var r, t, x := CreateTask(m, th, isUntied), m.tree.nextId, m.running[th];
    FamilyBounds(m, t);
    assert AscendingAt(m, x);
    forall a ensures Descends(r.tree.creator, a, t) <==> a == x || Descends(m.tree.creator, a, x) {
      DescendsNew(m.tree.creator, t, x, a);
    }
    forall b | Descends(m.tree.creator, b, x) ensures b < x { DescendsLess(m.tree.creator, b, x); }
    forall a, b | b < t ensures Descends(r.tree.creator, a, b) <==> Descends(m.tree.creator, a, b) {
      DescendsOld(m.tree.creator, t, x, a, b);
    }
    if x !in m.tree.untied && x !in m.tree.implicit.Values {
      forall b | Descends(r.tree.creator, x, b) ensures x < b { DescendsLess(r.tree.creator, x, b); }
    }
  }

  lemma CreateFamily(m: Mem, th: Thread, isUntied: bool)
    requires FamilyOk(m) && th in m.running && m.running[th] in m.kind
    requires IsImplicit(m, m.running[th]) <==> m.running[th] in m.tree.implicit.Values
    ensures FamilyOk(CreateTask(m, th, isUntied))
  {
    var r, t := CreateTask(m, th, isUntied), m.tree.nextId;
    FamilyBounds(m, t);
    forall d ensures AscendingAt(r, d) && ParentAt(r, d) {
      if d == t { CreatedAscends(m, th, isUntied); } else { CreatedOthers(m, th, isUntied, d); }
    }
  }

  /** A task whose parent completes takes over the ascending tied task of the parent, if it was that one. */
  lemma ClearedAscends(m: Mem, r: Mem, x: Task, t: Task)
    requires FamilyOk(m) && x in m.kind && r.kind.Keys == m.kind.Keys - {x} && r.tree == ClearParent(m.tree, x)
    ensures AscendingAt(r, t)
  {
    assert AscendingAt(m, t) && AscendingAt(m, x) && ParentAt(m, t);
    if t in m.tree.parent && m.tree.parent[t] == x && t in m.tree.ascending && m.tree.ascending[t] == x {
      forall b | Descends(m.tree.creator, b, t) ensures b == x || Descends(m.tree.creator, b, x) { }
      if x in m.tree.ascending { DescendsTransitive(m.tree.creator, m.tree.ascending[x], x, t); }
    }
  }

  lemma CompleteFamily(m: Mem, r: Mem, x: Task)
    requires FamilyOk(m) && x in m.kind && r.kind.Keys == m.kind.Keys - {x} && r.tree == ClearParent(m.tree, x)
    requires x !in m.tree.implicit.Values
    ensures FamilyOk(r)
  {
    forall t ensures AscendingAt(r, t) && ParentAt(r, t) {
      ClearedAscends(m, r, x, t);
      assert ParentAt(m, t);
    }
  }

  lemma SwitchFamily(m: Mem, r: Mem)
    requires FamilyOk(m) && r.kind.Keys == m.kind.Keys && r.tree == m.tree
    ensures FamilyOk(r)
  {
    forall t ensures AscendingAt(r, t) && ParentAt(r, t) { assert AscendingAt(m, t) && ParentAt(m, t); }
  }

  /** Who runs is implicit exactly if it is the implicit task of some thread. */
  lemma RunningImplicit(m: Mem, v: View, th: Thread)
    requires Inv(m, v) && th in m.tree.implicit
    ensures th in m.running && m.running[th] in m.kind
    ensures IsImplicit(m, m.running[th]) <==> m.running[th] in m.tree.implicit.Values
    ensures m.running[th] != m.tree.implicit[th] ==> m.running[th] !in m.tree.implicit.Values
  {
    assert ThreadOk(m, v, th);
    var p := v.path[th];
    assert Last(p) in p;
    if m.running[th] in m.tree.implicit.Values {
      var o :| o in m.tree.implicit && m.tree.implicit[o] == m.running[th];
      assert v.owner[m.tree.implicit[o]] == o;
    }
  }

  lemma SwitchStepFamily(m: Mem, th: Thread, n: Task)
    requires FamilyOk(m) && CanSwitch(m, th, n)
    ensures FamilyOk(Switch(m, th, n))
  {
    SwitchLinks(m, th, n);
    SwitchKinds(m, th, n);
    SwitchFamily(m, Switch(m, th, n));
  }

  lemma CompletedKinds(m: Mem, v: View, th: Thread)
    requires ThreadOk(m, v, th) && m.running[th] != m.tree.implicit[th]
    ensures CanComplete(m, th) && m.running[th] in m.kind
    ensures Complete(m, th).kind.Keys == m.kind.Keys - {m.running[th]}
    ensures Complete(m, th).tree == ClearParent(m.tree, m.running[th])
  {
    var p, c := v.path[th], Complete2(m, v, th);
    assert p[|p| - 2] in m.kind;
  }

  lemma StepFamily(m: Mem, op: Op, r: Mem, v: View)
    requires Inv(m, v) && FamilyOk(m) && Step(m, op, r)
    ensures FamilyOk(r)
  {
    RunningImplicit(m, v, op.th);
    match op {
      case SwitchOp(th, n) => SwitchStepFamily(m, th, n);
      case CompleteOp(th) =>
        assert ThreadOk(m, v, th);
        CompletedKinds(m, v, th);
        CompleteFamily(m, r, m.running[th]);
      case CreateOp(th, isUntied) => CreateFamily(m, th, isUntied);
    }
  }

  lemma StartFamily(n: nat)
    ensures FamilyOk(Start(n))
  {
    forall t ensures AscendingAt(Start(n), t) && ParentAt(Start(n), t) { }
  }

  lemma {:induction false} RunFamily(n: nat, ms: seq<Mem>, ops: seq<Op>, i: nat)
    requires Run(ms, ops) && ms[0] == Start(n) && i < |ms|
    ensures FamilyOk(ms[i])
  {
    StartGood(n);
    StartFamily(n);
    if i > 0 {
      RunFamily(n, ms, ops, i - 1);
      var v := RunGood(ms, ops, i - 1);
      StepFamily(ms[i - 1], ops[i - 1], ms[i], v);
    }
  }

  /** In every state of every run: ascending_tied_task, if not NULL, is a tied explicit task that created `t`,
      directly or not, and every tied explicit task between the two has terminated; if it is NULL, every tied
      explicit task that created `t`, directly or not, has terminated.  The parent pointer is the creator
      until that terminates. */
  lemma AscendingTheorem(n: nat, ms: seq<Mem>, ops: seq<Op>, i: nat, t: Task)
    requires Run(ms, ops) && ms[0] == Start(n) && i < |ms|
    ensures AscendingAt(ms[i], t) && ParentAt(ms[i], t)
  {
    RunFamily(n, ms, ops, i);
  }

  /** `a` is the nearest tied explicit task above `t` that still exists. */
  ghost predicate Nearest(m: Mem, a: Task, t: Task) {
    && TiedAncestor(m.tree, a, t) && a in m.kind
    && forall b :: TiedAncestor(m.tree, b, t) && b in m.kind ==> b == a || Descends(m.tree.creator, b, a)
  }

  /** ascending_tied_task of `t` has not terminated, or is NULL. */
  predicate NotStale(m: Mem, t: Task) {
    t in m.tree.ascending ==> m.tree.ascending[t] in m.kind
  }

  /** Then it is the nearest tied task that still exists. */
  lemma AscendingIsNearest(m: Mem, a: Task, t: Task)
    requires FamilyOk(m) && a in m.kind && NotStale(m, t)
    ensures t in m.tree.ascending && m.tree.ascending[t] == a <==> Nearest(m, a, t)
  {
    assert AscendingAt(m, t);
    if t in m.tree.ascending {
      var x := m.tree.ascending[t];
      forall b | TiedAncestor(m.tree, b, t) && b in m.kind ensures b == x || Descends(m.tree.creator, b, x) {
        DescendsTotal(m.tree.creator, x, b, t);
      }
      if Nearest(m, a, t) && a != x { NearestOnce(m, a, x, t); }
    }
  }

  lemma NearestOnce(m: Mem, a: Task, b: Task, t: Task)
    requires Nearest(m, a, t) && Nearest(m, b, t)
    ensures a == b
  {
    if Descends(m.tree.creator, a, b) { DescendsLess(m.tree.creator, a, b); }
    if Descends(m.tree.creator, b, a) { DescendsLess(m.tree.creator, b, a); }
  }

  /** What each scheduling point accepts, in terms of who created whom and who is tied and exists. */
  ghost predicate Accepts(m: Mem, th: Thread, n: Task, from: Source)
    requires th in m.running
  {
    var x := m.running[th];
    var own := n in m.tree.creator && m.tree.creator[n] == x;
    if th !in m.tied.last then from == NothingTied || from == Taskgroup || (from == Taskwait && own)
    else
      var last := m.tied.last[th];
      match from
      case ChildOfLastTied => n in m.tree.creator && m.tree.creator[n] == last
      case ChildOfUntied => own && x in m.tree.untied && Nearest(m, last, x)
      case Taskwait => own && if x in m.tree.untied then Nearest(m, last, x) else last == x
      case Taskgroup => Nearest(m, last, n)
      case NothingTied => false
  }

  /** The tests of the scheduling points say exactly that, unless an ascending_tied_task has terminated. */
  lemma OfferedExact(m: Mem, th: Thread, n: Task, from: Source)
    requires FamilyOk(m) && th in m.running && m.running[th] in m.kind && (th in m.tied.last ==> m.tied.last[th] in m.kind)
    requires NotStale(m, n) && NotStale(m, m.running[th])
    ensures Offered(m, th, n, from) <==> Accepts(m, th, n, from)
  {
    assert ParentAt(m, n);
    if th in m.tied.last {
      AscendingIsNearest(m, m.tied.last[th], n);
      AscendingIsNearest(m, m.tied.last[th], m.running[th]);
    }
  }

  /** That happens: when a tied task terminates, only its own children give it up, not the children of an
      untied task below it. */
  lemma StaleAscending(m: Mem, x: Task, t: Task)
    requires FamilyOk(m) && x in m.kind && x !in m.tree.untied && t in m.tree.ascending && m.tree.ascending[t] == x
    ensures var r := ClearParent(m.tree, x);
      (t in r.ascending && r.ascending[t] == x) <==> !(t in m.tree.creator && m.tree.creator[t] == x)
  {
    assert AscendingAt(m, t) && ParentAt(m, t) && AscendingAt(m, x);
    if x in m.tree.ascending { DescendsLess(m.tree.creator, m.tree.ascending[x], x); }
  }

  /** What creation has fixed never changes. */
  lemma {:induction false} RecordsStay(n: nat, ms: seq<Mem>, ops: seq<Op>, i: nat, j: nat)
    requires Run(ms, ops) && ms[0] == Start(n) && i <= j < |ms|
    ensures ms[i].tree.nextId <= ms[j].tree.nextId && ms[i].tree.implicit == ms[j].tree.implicit
    ensures forall t: Task :: t < ms[i].tree.nextId ==> SameRecord(ms[i].tree, ms[j].tree, t)
    decreases j
  {
    if i < j {
      RecordsStay(n, ms, ops, i, j - 1);
      assert Step(ms[j - 1], ops[j - 1], ms[j]);
      StepRecords(ms[j - 1], ops[j - 1], ms[j]);
      forall t: Task | t < ms[i].tree.nextId ensures SameRecord(ms[i].tree, ms[j].tree, t) {
        assert SameRecord(ms[i].tree, ms[j - 1].tree, t) && SameRecord(ms[j - 1].tree, ms[j].tree, t);
      }
    }
  }

  predicate SameRecord(tr: Tree, tr': Tree, t: Task) {
    && (t in tr.untied <==> t in tr'.untied)
    && (t in tr.creator <==> t in tr'.creator) && (t in tr.creator ==> tr'.creator[t] == tr.creator[t])
  }

  lemma StepRecords(m: Mem, op: Op, r: Mem)
    requires Step(m, op, r)
    ensures m.tree.nextId <= r.tree.nextId && m.tree.implicit == r.tree.implicit
    ensures forall t: Task :: t < m.tree.nextId ==> SameRecord(m.tree, r.tree, t)
  {
    if op.SwitchOp? { SwitchLinks(m, op.th, op.to); }
  }

  /** A task created in a run waits, and is for ever the child of who ran then, and untied exactly if that was
      asked for; nothing else changes. */
  lemma CreationTheorem(n: nat, ms: seq<Mem>, ops: seq<Op>, i: nat, j: nat)
    requires Run(ms, ops) && ms[0] == Start(n) && i < j < |ms| && ops[i].CreateOp?
    ensures var t, th := ms[i].tree.nextId, ops[i].th;
      && t !in ms[i].kind && ms[i + 1].kind == ms[i].kind[t := Waiting]
      && ms[i + 1] == ms[i].(kind := ms[i + 1].kind, tree := ms[i + 1].tree)
      && th in ms[i].running && t in ms[j].tree.creator && ms[j].tree.creator[t] == ms[i].running[th]
      && (t in ms[j].tree.untied <==> ops[i].isUntied)
  {
    var t := ms[i].tree.nextId;
    assert Step(ms[i], ops[i], ms[i + 1]);
    StartGood(n);
    RunFamily(n, ms, ops, i);
    FamilyBounds(ms[i], t);
    RecordsStay(n, ms, ops, i + 1, j);
    UntiedBounds(n, ms, ops, i);
    assert SameRecord(ms[i + 1].tree, ms[j].tree, t);
  }

  lemma {:induction false} UntiedBounds(n: nat, ms: seq<Mem>, ops: seq<Op>, i: nat)
    requires Run(ms, ops) && ms[0] == Start(n) && i < |ms|
    ensures forall t :: t in ms[i].tree.untied ==> t < ms[i].tree.nextId
  {
    if i > 0 {
      UntiedBounds(n, ms, ops, i - 1);
      assert Step(ms[i - 1], ops[i - 1], ms[i]);
      if ops[i - 1].SwitchOp? { SwitchLinks(ms[i - 1], ops[i - 1].th, ops[i - 1].to); }
    }
  }

  /** On every thread the switch links form one path from the implicit to the running task, the tasks
      strictly between are exactly those suspended there, and the tied list is a chain of descendants. */
  ghost predicate Disciplined(m: Mem, p: seq<Task>, c: seq<Task>, th: Thread) {
    && th in m.tree.implicit && th in m.running && th in m.suspended
    && p != [] && p[0] == m.tree.implicit[th] && Last(p) == m.running[th] && Distinct(p)
    && Chained(m.sw, p) && m.suspended[th] == Interior(p)
    && Chained(m.tied.links, c) && Descending(m.tree.creator, c)
    && (forall t :: t in c <==> t in p && t !in m.tree.untied && t != m.tree.implicit[th])
    && (if c == [] then th !in m.tied.last else th in m.tied.last && m.tied.last[th] == Last(c))
    && (m.running[th] == m.tree.implicit[th] ==> m.suspended[th] == {} && c == [])
  }

  /** Over every run of switches, completions and creations, every state is disciplined, and a fresh
      tied task that a scheduling point offers descends from every task tied to the thread. */
  lemma SwitchTheorem(n: nat, ms: seq<Mem>, ops: seq<Op>, i: nat, th: Thread)
    requires Run(ms, ops) && ms[0] == Start(n) && i < |ms| && th in ms[i].tree.implicit
    ensures exists p, c :: Disciplined(ms[i], p, c, th) &&
              forall t, from :: Offers(ms[i], th, t, from) ==> DescendsFromAll(ms[i].tree.creator, c, t)
  {
    StartGood(n);
    var v := RunGood(ms, ops, i);
    var m := ms[i];
    assert ThreadOk(m, v, th);
    ImplicitRunsAlone(m, v, th);
    forall t, from | Offers(m, th, t, from)
      ensures DescendsFromAll(m.tree.creator, v.chain[th], t)
    {
      OfferedDescends(m, v, th, t, from);
    }
    forall t ensures t in v.chain[th] <==> t in v.path[th] && t !in m.tree.untied && t != m.tree.implicit[th] { }
    assert Disciplined(m, v.path[th], v.chain[th], th);
  }

  predicate Offers(m: Mem, th: Thread, t: Task, from: Source) {
    th in m.running && Offered(m, th, t, from)
  }

  predicate DescendsFromAll(creator: map<Task, Task>, c: seq<Task>, t: Task) {
    forall i :: 0 <= i < |c| ==> Descends(creator, c[i], t)
  }

  /** A resumed task sees NULL in switch_from_task, a task returned to sees the task that completed. */
  lemma ResumptionTheorem(n: nat, ms: seq<Mem>, ops: seq<Op>, i: nat, th: Thread)
    requires Run(ms, ops) && ms[0] == Start(n) && i < |ms| && th in ms[i].tree.implicit
    ensures th in ms[i].running && ms[i].running[th] !in ms[i].sw.next
    ensures ms[i].running[th] != ms[i].tree.implicit[th] ==>
              CanComplete(ms[i], th) &&
              var y := ms[i].sw.prev[ms[i].running[th]];
              y in ms[i].sw.next && ms[i].sw.next[y] == ms[i].running[th]
  {
    StartGood(n);
    var v := RunGood(ms, ops, i);
    assert ThreadOk(ms[i], v, th);
    CompletionIsRecognised(ms[i], v, th);
  }

  // ---------- The machine, updated in place ----------

  /** The pointer fields of all tasks and threads of a team. */
  class Machine {
    var switchFromTask: map<Task, Task>
    var switchTask: map<Task, Task>
    var nextTied: map<Task, Task>
    var previousTied: map<Task, Task>
    var lastTied: map<Thread, Task>
    var kind: map<Task, Kind>
    var running: map<Thread, Task>
    var suspended: map<Thread, set<Task>>
    var tree: Tree

    function Tied(): TiedList
      reads this
    {
      TiedList(Dll(nextTied, previousTied), lastTied)
    }

    function Contents(): Mem
      reads this
    {
      Mem(Dll(switchFromTask, switchTask), Tied(), kind, running, suspended, tree)
    }

    method InsertInTiedList(th: Thread, x: Task, n: Task)
      modifies this`nextTied, this`previousTied, this`lastTied
      ensures Tied() == InsertTied(old(Tied()), th, IsImplicit(old(Contents()), x), n)
    {
      if x in kind && kind[x] == ImplicitTask {
        lastTied := lastTied[th := n];
      } else if n !in previousTied && n !in nextTied {
        if th in lastTied && lastTied[th] != n {
          nextTied := nextTied[lastTied[th] := n];
          previousTied := previousTied[n := lastTied[th]];
        }
        lastTied := lastTied[th := n];
      }
    }

    method RemoveFromTiedList(th: Thread, y: Task, x: Task)
      modifies this`nextTied, this`previousTied, this`lastTied
      ensures Tied() == RemoveTied(old(Tied()), th, IsImplicit(old(Contents()), y), x)
    {
      if y in kind && kind[y] == ImplicitTask {
        lastTied := lastTied - {th};
      } else if th in lastTied && lastTied[th] == x {
        if x in previousTied {
          lastTied := lastTied[th := previousTied[x]];
          nextTied := nextTied - {lastTied[th]};
        } else {
          lastTied := lastTied - {th};
        }
      } else {
        UnlinkTied(x);
      }
    }

    method UnlinkTied(x: Task)
      modifies this`nextTied, this`previousTied
      ensures Dll(nextTied, previousTied) == Unlink(old(Dll(nextTied, previousTied)), x)
    {
      var before := previousTied;
      if x in nextTied {
        previousTied := if x in previousTied then previousTied[nextTied[x] := previousTied[x]]
                        else previousTied - {nextTied[x]};
      }
      if x in before {
        nextTied := if x in nextTied then nextTied[before[x] := nextTied[x]]
                    else nextTied - {before[x]};
      }
    }

    method UnlinkSwitch(x: Task)
      modifies this`switchFromTask, this`switchTask
      ensures Dll(switchFromTask, switchTask) == Unlink(old(Dll(switchFromTask, switchTask)), x)
    {
      var below := switchTask;
      if x in switchFromTask {
        switchTask := if x in switchTask then switchTask[switchFromTask[x] := switchTask[x]]
                      else switchTask - {switchFromTask[x]};
      }
      if x in below {
        switchFromTask := if x in switchFromTask then switchFromTask[below[x] := switchFromTask[x]]
                          else switchFromTask - {below[x]};
      }
    }

    method TaskRunPre(th: Thread, n: Task)
      requires th in suspended
      modifies this`switchFromTask, this`switchTask, this`suspended, this`kind
      ensures Contents() == RunPre(old(Contents()), th, n)
    {
      if n in kind && kind[n] == TiedSuspended {
        suspended := suspended[th := suspended[th] - {n}];
        UnlinkSwitch(n);
      }
      kind := kind[n := Running];
    }

    method SuspendTiedFor(th: Thread, n: Task)
      requires th in running && th in suspended
      modifies this
      ensures Contents() == SuspendTied(old(Contents()), th, n)
    {
      var x := running[th];
      switchTask := switchTask[n := x];
      switchFromTask := switchFromTask[x := n] - {n};
      if n !in tree.untied {
        InsertInTiedList(th, x, n);
      }
      if !(x in kind && kind[x] == ImplicitTask) {
        suspended := suspended[th := suspended[th] + {x}];
        kind := kind[x := TiedSuspended];
      }
      running := running[th := n];
    }

    method SuspendUntiedFor(th: Thread, n: Task)
      requires th in running && running[th] in switchTask
      modifies this
      ensures Contents() == SuspendUntied(old(Contents()), th, n)
    {
      var x := running[th];
      var y := switchTask[x];
      switchTask := switchTask[n := y];
      switchFromTask := switchFromTask[y := n] - {n};
      if n !in tree.untied {
        InsertInTiedList(th, x, n);
      }
      switchTask, switchFromTask := switchTask - {x}, switchFromTask - {x};
      kind := kind[x := Waiting];
      running := running[th := n];
    }

    /** The common tail of the scheduling points. */
    method SwitchTo(th: Thread, n: Task)
      requires th in running && th in suspended
      requires running[th] in tree.untied ==> running[th] in RunPre(Contents(), th, n).sw.prev
      modifies this
      ensures Contents() == Switch(old(Contents()), th, n)
    {
      TaskRunPre(th, n);
      if running[th] in tree.untied {
        SuspendUntiedFor(th, n);
      } else {
        SuspendTiedFor(th, n);
      }
    }

    method CompleteRunning(th: Thread)
      requires CanComplete(Contents(), th)
      modifies this
      ensures Contents() == Complete(old(Contents()), th)
    {
      var x := running[th];
      var y := switchTask[x];
      running := running[th := y];
      switchFromTask := switchFromTask - {y};
      if x !in tree.untied {
        RemoveFromTiedList(th, y, x);
      }
      var wasSuspended := y in kind && kind[y] == TiedSuspended;
      kind := kind - {x};
      if wasSuspended {
        suspended := suspended[th := suspended[th] - {y}];
        kind := kind[y := Running];
      }
      tree := ClearParent(tree, x);
    }
  }
}
