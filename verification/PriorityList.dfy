/** The children list of one priority (priority_queue.h, task.c, task.h): a circular doubly linked list
    with two internal cursors, and a second ring for the blocked tasks. */
module PriorityList {
  import opened Links

  type Node = nat

  /** A pointer to a node, or NULL. */
  datatype Ptr = Null | To(node: Node)

  /** One struct priority_list; `links` are the next and prev fields of the nodes. */
  datatype List = List(links: Dll<Node>, tasks: Ptr, lastParentDependsOn: Ptr, firstRunning: Ptr, blockedTasks: Ptr)

  const EmptyList := List(Dll(map[], map[]), Null, Null, Null, Null)

  // ---------- Rings ----------

  function Succ(n: nat, i: nat): nat {
    if i + 1 == n then 0 else i + 1
  }

  predicate RingAt(d: Dll<Node>, s: seq<Node>, i: int)
    requires 0 <= i < |s|
  {
    var j := Succ(|s|, i);
    && s[i] in d.next && d.next[s[i]] == s[j]
    && s[j] in d.prev && d.prev[s[j]] == s[i]
  }

  /** The nodes of `s` form a ring. */
  predicate Ring(d: Dll<Node>, s: seq<Node>) {
    Distinct(s) && forall i :: 0 <= i < |s| ==> RingAt(d, s, i)
  }

  /** `x` alone. */
  function Alone(d: Dll<Node>, x: Node): Dll<Node> {
    Dll(d.next[x := x], d.prev[x := x])
  }

  /** `x` is linked in before `y`. */
  function LinkBefore(d: Dll<Node>, x: Node, y: Node): Dll<Node>
    requires y in d.prev
  {
    Dll(d.next[x := y][d.prev[y] := x], d.prev[x := d.prev[y]][y := x])
  }

  /** The neighbours of `x` close the gap. */
  function Unhook(d: Dll<Node>, x: Node): Dll<Node>
    requires x in d.next && x in d.prev
  {
    Dll(d.next[d.prev[x] := d.next[x]], d.prev[d.next[x] := d.prev[x]])
  }

  lemma RingNeighbours(d: Dll<Node>, s: seq<Node>, i: nat)
    requires Ring(d, s) && i < |s|
    ensures s[i] in d.next && d.next[s[i]] == s[Succ(|s|, i)]
    ensures s[i] in d.prev && d.prev[s[i]] == s[if i == 0 then |s| - 1 else i - 1]
  {
    assert RingAt(d, s, i);
    assert RingAt(d, s, if i == 0 then |s| - 1 else i - 1);
  }

  /** `r` is `s` with `x` inserted at `k`, as far as index `i` can tell. */
  predicate InsertedAt(s: seq<Node>, k: nat, x: Node, r: seq<Node>, i: nat) {
    && |r| == |s| + 1
    && (i <= |s| && k <= |s| ==> r[i] == if i < k then s[i] else if i == k then x else s[i - 1])
  }

  lemma Inserted(s: seq<Node>, k: nat, x: Node, i: nat)
    requires k <= |s|
    ensures InsertedAt(s, k, x, InsertAt(s, k, x), i)
  {
  }

  lemma LinkedAt(d: Dll<Node>, s: seq<Node>, k: nat, x: Node, i: nat, r: seq<Node>, j: nat)
    requires Ring(d, s) && s != [] && x !in s && k <= |s| && i <= |s| && j == (if k == |s| then 0 else k)
    requires InsertedAt(s, k, x, r, i) && InsertedAt(s, k, x, r, Succ(|s| + 1, i))
    ensures s[j] in d.prev && RingAt(LinkBefore(d, x, s[j]), r, i)
  {
    RingNeighbours(d, s, j);
    if i != k {
      var m := if i < k then i else i - 1;
      RingNeighbours(d, s, m);
      assert s[m] == d.prev[s[j]] <==> i + 1 == k || (k == 0 && i == |s|);
      assert Succ(|s|, m) != j ==> s[Succ(|s|, m)] != s[j];
      RingNeighbours(d, s, Succ(|s|, m));
    }
  }

  lemma LinkRingAt(d: Dll<Node>, s: seq<Node>, k: nat, x: Node, i: nat)
    requires Ring(d, s) && s != [] && x !in s && k <= |s| && i <= |s|
    ensures var y := s[if k == |s| then 0 else k]; y in d.prev && RingAt(LinkBefore(d, x, y), InsertAt(s, k, x), i)
  {
    Inserted(s, k, x, i);
    Inserted(s, k, x, Succ(|s| + 1, i));
    LinkedAt(d, s, k, x, i, InsertAt(s, k, x), if k == |s| then 0 else k);
  }

  lemma LinkRing(d: Dll<Node>, s: seq<Node>, k: nat, x: Node)
    requires Ring(d, s) && s != [] && x !in s && k <= |s|
    ensures var y := s[if k == |s| then 0 else k]; y in d.prev && Ring(LinkBefore(d, x, y), InsertAt(s, k, x))
  {
    RingNeighbours(d, s, if k == |s| then 0 else k);
    var d', r := LinkBefore(d, x, s[if k == |s| then 0 else k]), InsertAt(s, k, x);
    forall i | 0 <= i < |r|
      ensures RingAt(d', r, i)
    {
      LinkRingAt(d, s, k, x, i);
    }
  }

  lemma UnhookRing(d: Dll<Node>, s: seq<Node>, k: nat)
    requires Ring(d, s) && k < |s|
    ensures s[k] in d.next && s[k] in d.prev && Ring(Unhook(d, s[k]), RemoveAt(s, k))
  {
    RingNeighbours(d, s, k);
    var d', r := Unhook(d, s[k]), RemoveAt(s, k);
    forall i | 0 <= i < |r|
      ensures RingAt(d', r, i)
    {
      RingNeighbours(d, s, if i < k then i else i + 1);
      RingNeighbours(d, s, Succ(|s|, if i < k then i else i + 1));
    }
  }

  lemma AloneRing(d: Dll<Node>, x: Node)
    ensures Ring(Alone(d, x), [x])
  {
  }

  function Forward(s: seq<Node>): (r: seq<Node>)
    requires s != []
    ensures |r| == |s| && forall i :: 0 <= i < |r| ==> r[i] == s[Succ(|s|, i)]
  {
    s[1..] + [s[0]]
  }

  function Backward(s: seq<Node>): (r: seq<Node>)
    requires s != []
    ensures |r| == |s| && forall i :: 0 <= i < |r| ==> r[i] == s[if i == 0 then |s| - 1 else i - 1]
  {
    [s[|s| - 1]] + s[..|s| - 1]
  }

  /** A ring may be read from any of its nodes. */
  lemma TurnRing(d: Dll<Node>, s: seq<Node>)
    requires Ring(d, s) && s != []
    ensures Ring(d, Forward(s)) && Ring(d, Backward(s))
  {
    forall i | 0 <= i < |s|
      ensures RingAt(d, Forward(s), i)
    {
      assert RingAt(d, s, Succ(|s|, i));
    }
    forall i | 0 <= i < |s|
      ensures RingAt(d, Backward(s), i)
    {
      assert RingAt(d, s, if i == 0 then |s| - 1 else i - 1);
    }
  }

  lemma RingFrame(d: Dll<Node>, d': Dll<Node>, s: seq<Node>)
    requires Ring(d, s) && SameOn(d, d', s)
    ensures Ring(d', s)
  {
    forall i | 0 <= i < |s|
      ensures RingAt(d', s, i)
    {
      assert RingAt(d, s, i);
    }
  }

  lemma LinkElsewhere(d: Dll<Node>, s: seq<Node>, j: nat, x: Node, o: seq<Node>)
    requires Ring(d, s) && j < |s| && Ring(d, o) && x !in o && forall t :: t in s ==> t !in o
    ensures s[j] in d.prev && Ring(LinkBefore(d, x, s[j]), o)
  {
    RingNeighbours(d, s, j);
    var p := s[if j == 0 then |s| - 1 else j - 1];
    assert s[j] in s && p in s;
    RingFrame(d, LinkBefore(d, x, s[j]), o);
  }

  lemma UnhookElsewhere(d: Dll<Node>, s: seq<Node>, k: nat, o: seq<Node>)
    requires Ring(d, s) && k < |s| && Ring(d, o) && forall t :: t in s ==> t !in o
    ensures s[k] in d.next && s[k] in d.prev && Ring(Unhook(d, s[k]), o)
  {
    RingNeighbours(d, s, k);
    var p, q := s[if k == 0 then |s| - 1 else k - 1], s[Succ(|s|, k)];
    assert p in s && q in s;
    RingFrame(d, Unhook(d, s[k]), o);
  }

  lemma AloneElsewhere(d: Dll<Node>, x: Node, o: seq<Node>)
    requires Ring(d, o) && x !in o
    ensures Ring(Alone(d, x), o)
  {
    RingFrame(d, Alone(d, x), o);
  }

  // ---------- What the list represents ----------

  /** `ring` is the list from `tasks` on: first the `na` schedulable tasks the parent waits for, then the
      other schedulable ones up to `nw`, then the running ones. */
  datatype View = View(ring: seq<Node>, na: nat, nw: nat, blocked: seq<Node>)

  function PtrAt(s: seq<Node>, i: int): Ptr {
    if 0 <= i < |s| then To(s[i]) else Null
  }

  /** The cursors stand at the segment boundaries. */
  predicate CursorsOk(l: List, v: View) {
    && v.na <= v.nw <= |v.ring|
    && l.tasks == PtrAt(v.ring, 0)
    && l.lastParentDependsOn == (if v.na == 0 then Null else PtrAt(v.ring, v.na - 1))
    && l.firstRunning == PtrAt(v.ring, v.nw)
    && l.blockedTasks == PtrAt(v.blocked, 0)
  }

  ghost predicate Shape(d: Dll<Node>, ring: seq<Node>, blocked: seq<Node>) {
    && Ring(d, ring) && Ring(d, blocked)
    && forall t :: t in ring ==> t !in blocked
  }

  ghost predicate Inv(l: List, v: View) {
    Shape(l.links, v.ring, v.blocked) && CursorsOk(l, v)
  }

  predicate New(v: View, x: Node) {
    x !in v.ring && x !in v.blocked
  }

  // ---------- Insertion ----------

  /** Before the node `p` points at; a list without nodes gets its first one. */
  function Hook(d: Dll<Node>, x: Node, p: Ptr): Dll<Node> {
    if p.To? && p.node in d.prev then LinkBefore(d, x, p.node) else Alone(d, x)
  }

  function NextOf(d: Dll<Node>, p: Ptr): Ptr {
    if p.To? && p.node in d.next then To(d.next[p.node]) else Null
  }

  function PrevOf(d: Dll<Node>, p: Ptr): Ptr {
    if p.To? && p.node in d.prev then To(d.prev[p.node]) else Null
  }

  /** priority_list_insert of a task that is not blocked. */
  function Insert(l: List, x: Node, begin: bool, awaited: bool): List {
    if l.tasks == Null then
      l.(links := Alone(l.links, x), tasks := To(x),
         lastParentDependsOn := if awaited then To(x) else l.lastParentDependsOn)
    else if awaited then
      if begin || l.lastParentDependsOn == Null then
        l.(links := Hook(l.links, x, l.tasks), tasks := To(x),
           lastParentDependsOn := if l.lastParentDependsOn == Null then To(x) else l.lastParentDependsOn)
      else
        l.(links := Hook(l.links, x, NextOf(l.links, l.lastParentDependsOn)), lastParentDependsOn := To(x))
    else if begin && l.lastParentDependsOn == Null then l.(links := Hook(l.links, x, l.tasks), tasks := To(x))
    else if !begin && l.firstRunning == Null then l.(links := Hook(l.links, x, l.tasks))
    else if begin then l.(links := Hook(l.links, x, NextOf(l.links, l.lastParentDependsOn)))
    else
      l.(links := Hook(l.links, x, l.firstRunning), tasks := if l.tasks == l.firstRunning then To(x) else l.tasks)
  }

  /** The beginning or the end of the segment of schedulable tasks the new one belongs to. */
  function PlaceFor(v: View, begin: bool, awaited: bool): nat {
    if awaited then (if begin then 0 else v.na) else if begin then v.na else v.nw
  }

  function InsertView(v: View, x: Node, begin: bool, awaited: bool): View
    requires v.na <= v.nw <= |v.ring|
  {
    View(InsertAt(v.ring, PlaceFor(v, begin, awaited), x), v.na + (if awaited then 1 else 0), v.nw + 1, v.blocked)
  }

  /** Linking in at position `k`, whatever happens to the cursors. */
  lemma HookShape(d: Dll<Node>, s: seq<Node>, blocked: seq<Node>, x: Node, k: nat, p: Ptr)
    requires Shape(d, s, blocked) && x !in s && x !in blocked && k <= |s|
    requires s != [] ==> p == To(s[if k == |s| then 0 else k])
    requires s == [] ==> p == Null
    ensures Shape(Hook(d, x, p), InsertAt(s, k, x), blocked)
  {
    if s == [] {
      AloneRing(d, x);
      AloneElsewhere(d, x, blocked);
      assert InsertAt(s, k, x) == [x];
    } else {
      var j := if k == |s| then 0 else k;
      LinkRing(d, s, k, x);
      LinkElsewhere(d, s, j, x, blocked);
    }
    forall t | t in InsertAt(s, k, x) ensures t in s || t == x { }
  }

  lemma NextOfAt(d: Dll<Node>, s: seq<Node>, i: nat)
    requires Ring(d, s) && i < |s|
    ensures NextOf(d, To(s[i])) == To(s[Succ(|s|, i)])
    ensures PrevOf(d, To(s[i])) == To(s[if i == 0 then |s| - 1 else i - 1])
  {
    RingNeighbours(d, s, i);
  }

  lemma InsertKeeps(l: List, v: View, x: Node, begin: bool, awaited: bool)
    requires Inv(l, v) && New(v, x)
    ensures Inv(Insert(l, x, begin, awaited), InsertView(v, x, begin, awaited))
  {
    var k := PlaceFor(v, begin, awaited);
    var s := v.ring;
    if s == [] {
      HookShape(l.links, s, v.blocked, x, k, Null);
    } else {
      HookShape(l.links, s, v.blocked, x, k, To(s[if k == |s| then 0 else k]));
      if v.na > 0 { NextOfAt(l.links, s, v.na - 1); }
    }
    InsertCursors(l, v, x, begin, awaited);
  }

  lemma InsertCursors(l: List, v: View, x: Node, begin: bool, awaited: bool)
    requires CursorsOk(l, v) && New(v, x) && Distinct(v.ring)
    ensures CursorsOk(Insert(l, x, begin, awaited), InsertView(v, x, begin, awaited))
  {
  }

  /** priority_list_insert_running. */
  function InsertRunning(l: List, x: Node): List {
    if l.tasks == Null then l.(links := Alone(l.links, x), tasks := To(x), firstRunning := To(x))
    else l.(links := Hook(l.links, x, l.tasks), firstRunning := if l.firstRunning == Null then To(x) else l.firstRunning)
  }

  lemma InsertRunningKeeps(l: List, v: View, x: Node)
    requires Inv(l, v) && New(v, x)
    ensures Inv(InsertRunning(l, x), v.(ring := v.ring + [x]))
  {
    HookShape(l.links, v.ring, v.blocked, x, |v.ring|, l.tasks);
    assert InsertAt(v.ring, |v.ring|, x) == v.ring + [x];
  }

  /** priority_list_insert of a blocked task. */
  function InsertBlocked(l: List, x: Node): List {
    if l.blockedTasks == Null then l.(links := Alone(l.links, x), blockedTasks := To(x))
    else l.(links := Hook(l.links, x, l.blockedTasks))
  }

  lemma InsertBlockedKeeps(l: List, v: View, x: Node)
    requires Inv(l, v) && New(v, x)
    ensures Inv(InsertBlocked(l, x), v.(blocked := v.blocked + [x]))
  {
    assert Shape(l.links, v.blocked, v.ring) by { forall t | t in v.blocked ensures t !in v.ring { } }
    HookShape(l.links, v.blocked, v.ring, x, |v.blocked|, l.blockedTasks);
    assert InsertAt(v.blocked, |v.blocked|, x) == v.blocked + [x];
  }

  // ---------- Removal ----------

  /** What the branch conditions of the removals and moves say about the position of the node. */
  ghost predicate Located(l: List, v: View, k: nat) {
    && v.na <= v.nw <= |v.ring| && k < |v.ring| && v.ring[k] in l.links.next && v.ring[k] in l.links.prev
    && (l.tasks == To(v.ring[k]) <==> k == 0)
    && (l.links.next[v.ring[k]] == v.ring[k] <==> |v.ring| == 1)
    && (To(l.links.next[v.ring[k]]) == l.tasks <==> k == |v.ring| - 1)
    && (l.firstRunning == To(v.ring[k]) <==> k == v.nw)
    && (To(l.links.next[v.ring[k]]) == l.firstRunning <==> if k == |v.ring| - 1 then v.nw == 0 else k == v.nw - 1)
    && (l.lastParentDependsOn == To(v.ring[k]) <==> k == v.na - 1)
    && (l.lastParentDependsOn == Null <==> v.na == 0)
    && (k > 0 && v.na > 0 ==> (To(l.links.prev[v.ring[k]]) == l.lastParentDependsOn <==> k == v.na))
    && l.links.next[v.ring[k]] == v.ring[Succ(|v.ring|, k)]
    && (k > 0 ==> l.links.prev[v.ring[k]] == v.ring[k - 1])
  }

  lemma Locate(l: List, v: View, k: nat)
    requires Ring(l.links, v.ring) && CursorsOk(l, v) && k < |v.ring|
    ensures Located(l, v, k)
  {
    RingNeighbours(l.links, v.ring, k);
  }

  /** priority_list_remove of a task that is not blocked. */
  function Remove(l: List, x: Node): List
    requires x in l.links.next && x in l.links.prev
  {
    var next, prev := To(l.links.next[x]), To(l.links.prev[x]);
    if l.tasks == To(x) && next == To(x) then
      l.(tasks := Null, firstRunning := Null,
         lastParentDependsOn := if l.firstRunning != Null then l.lastParentDependsOn else Null)
    else
      var l1 := l.(links := Unhook(l.links, x));
      if l.tasks == To(x) then
        l1.(tasks := next,
            firstRunning := if l.firstRunning == To(x) then next else l.firstRunning,
            lastParentDependsOn := if l.firstRunning != To(x) && l.lastParentDependsOn == To(x) then Null else l.lastParentDependsOn)
      else
        l1.(firstRunning := if l.firstRunning == To(x) then (if next != l.tasks then next else Null) else l.firstRunning,
            lastParentDependsOn := if l.firstRunning != To(x) && l.lastParentDependsOn == To(x) then prev else l.lastParentDependsOn)
  }

  function RemoveView(v: View, k: nat): View
    requires k < |v.ring|
  {
    View(RemoveAt(v.ring, k), if k < v.na then v.na - 1 else v.na, if k < v.nw then v.nw - 1 else v.nw, v.blocked)
  }

  /** Removing a node in the middle of the running or of the schedulable tasks, seen from the cursors. */
  lemma RemovedCursors(l: List, v: View, k: nat, r: seq<Node>)
    requires CursorsOk(l, v) && Located(l, v, k) && |r| == |v.ring| - 1
    requires forall i :: 0 <= i < |r| ==> r[i] == v.ring[if i < k then i else i + 1]
    ensures CursorsOk(Remove(l, v.ring[k]), RemoveView(v, k).(ring := r))
  {
  }

  lemma RemoveCursors(l: List, v: View, k: nat)
    requires CursorsOk(l, v) && Located(l, v, k)
    ensures CursorsOk(Remove(l, v.ring[k]), RemoveView(v, k))
  {
    RemovedCursors(l, v, k, RemoveAt(v.ring, k));
  }

  lemma RemoveKeeps(l: List, v: View, k: nat)
    requires Inv(l, v) && k < |v.ring|
    ensures v.ring[k] in l.links.next && v.ring[k] in l.links.prev
    ensures Inv(Remove(l, v.ring[k]), RemoveView(v, k))
    ensures Remove(l, v.ring[k]).tasks == Null && l.blockedTasks == Null <==> |v.ring| == 1 && v.blocked == []
  {
    Locate(l, v, k);
    UnhookRing(l.links, v.ring, k);
    UnhookElsewhere(l.links, v.ring, k, v.blocked);
    RemoveCursors(l, v, k);
    forall t | t in RemoveAt(v.ring, k) ensures t in v.ring { }
  }

  /** priority_list_remove of a blocked task. */
  function RemoveBlocked(l: List, x: Node): List
    requires x in l.links.next && x in l.links.prev
  {
    if l.blockedTasks == To(x) && l.links.next[x] == x then l.(blockedTasks := Null)
    else
      l.(links := Unhook(l.links, x),
         blockedTasks := if l.blockedTasks == To(x) then To(l.links.next[x]) else l.blockedTasks)
  }

  lemma RemoveBlockedKeeps(l: List, v: View, k: nat)
    requires Inv(l, v) && k < |v.blocked|
    ensures v.blocked[k] in l.links.next && v.blocked[k] in l.links.prev
    ensures Inv(RemoveBlocked(l, v.blocked[k]), v.(blocked := RemoveAt(v.blocked, k)))
  {
    var b := v.blocked;
    RingNeighbours(l.links, b, k);
    UnhookRing(l.links, b, k);
    forall t | t in b ensures t !in v.ring { }
    UnhookElsewhere(l.links, b, k, v.ring);
    forall t | t in RemoveAt(b, k) ensures t in b { }
  }

  // ---------- Moves within the list ----------

  /** The node at `k` moves to position `p`. */
  function MoveTo(s: seq<Node>, k: nat, p: nat): (r: seq<Node>)
    requires k < |s| && p < |s|
  {
    InsertAt(RemoveAt(s, k), p, s[k])
  }

  /** Unhooked and linked in again before `y`. */
  function Rehook(d: Dll<Node>, x: Node, y: Ptr): Dll<Node>
    requires x in d.next && x in d.prev
  {
    Hook(Unhook(d, x), x, y)
  }

  /** `r` is `s` after the node at `k` moved to `p`, as far as index `i` can tell. */
  predicate MovedAt(s: seq<Node>, k: nat, p: nat, r: seq<Node>, i: nat) {
    && |r| == |s|
    && (i < |r| && k < |s| && p < |s| ==>
          r[i] == if i == p then s[k] else if k <= i < p then s[i + 1] else if p < i <= k then s[i - 1] else s[i])
  }

  lemma Moved(s: seq<Node>, k: nat, p: nat, i: nat)
    requires k < |s| && p < |s|
    ensures MovedAt(s, k, p, MoveTo(s, k, p), i)
  {
  }

  /** A move of an element to where it stands, or from one end to the other. */
  lemma MoveSpecial(s: seq<Node>, k: nat)
    requires k < |s|
    ensures MoveTo(s, k, k) == s
    ensures MoveTo(s, 0, |s| - 1) == Forward(s)
    ensures MoveTo(s, |s| - 1, 0) == Backward(s)
  {
    var a, b, c := MoveTo(s, k, k), MoveTo(s, 0, |s| - 1), MoveTo(s, |s| - 1, 0);
    var f, g := Forward(s), Backward(s);
    Moved(s, k, k, 0);
    Moved(s, 0, |s| - 1, 0);
    Moved(s, |s| - 1, 0, 0);
    forall i | 0 <= i < |s| ensures a[i] == s[i] { Moved(s, k, k, i); }
    forall i | 0 <= i < |s| ensures b[i] == f[i] { Moved(s, 0, |s| - 1, i); }
    forall i | 0 <= i < |s| ensures c[i] == g[i] { Moved(s, |s| - 1, 0, i); }
  }

  lemma RemoveAtLacks(s: seq<Node>, k: nat)
    requires Distinct(s) && k < |s|
    ensures s[k] !in RemoveAt(s, k)
  {
  }

  lemma MoveShape(d: Dll<Node>, s: seq<Node>, blocked: seq<Node>, k: nat, p: nat, y: Ptr)
    requires Shape(d, s, blocked) && k < |s| && p < |s| && |s| > 1
    requires var r := RemoveAt(s, k); y == To(r[if p == |r| then 0 else p])
    ensures s[k] in d.next && s[k] in d.prev
    ensures Shape(Rehook(d, s[k], y), MoveTo(s, k, p), blocked)
  {
    UnhookRing(d, s, k);
    UnhookElsewhere(d, s, k, blocked);
    RemoveAtLacks(s, k);
    forall t | t in RemoveAt(s, k) ensures t in s { }
    assert s[k] in s;
    HookShape(Unhook(d, s[k]), RemoveAt(s, k), blocked, s[k], p, y);
  }

  lemma TurnShape(d: Dll<Node>, s: seq<Node>, blocked: seq<Node>)
    requires Shape(d, s, blocked) && s != []
    ensures Shape(d, MoveTo(s, 0, |s| - 1), blocked) && Shape(d, MoveTo(s, |s| - 1, 0), blocked)
  {
    MoveSpecial(s, 0);
    TurnRing(d, s);
    forall t | t in Forward(s) || t in Backward(s) ensures t in s { }
  }

  /** priority_list_upgrade_task: the parent begins to wait for the schedulable task `x`. */
  function Upgrade(l: List, x: Node): List
    requires x in l.links.next && x in l.links.prev
  {
    if l.tasks == To(x) then
      l.(lastParentDependsOn := if l.lastParentDependsOn == Null then To(x) else l.lastParentDependsOn)
    else if l.lastParentDependsOn == Null then
      if To(l.links.next[x]) == l.tasks then l.(tasks := To(x), lastParentDependsOn := To(x))
      else l.(links := Rehook(l.links, x, l.tasks), tasks := To(x), lastParentDependsOn := To(x))
    else if To(l.links.prev[x]) == l.lastParentDependsOn then l.(lastParentDependsOn := To(x))
    else if To(l.links.next[x]) == l.tasks then l.(tasks := To(x))
    else
      l.(links := Rehook(l.links, x, NextOf(Unhook(l.links, x), l.lastParentDependsOn)), lastParentDependsOn := To(x))
  }

  /** Where an upgraded task goes: behind the awaited ones, or to the front if it closes the list. */
  function UpgradePlace(v: View, k: nat): nat {
    if v.na > 0 && k != v.na && k == |v.ring| - 1 then 0 else v.na
  }

  function UpgradeView(v: View, k: nat): View
    requires v.na <= k < v.nw <= |v.ring|
  {
    v.(ring := MoveTo(v.ring, k, UpgradePlace(v, k)), na := v.na + 1)
  }

  lemma UpgradeFirstCursors(l: List, v: View, k: nat, r: seq<Node>)
    requires CursorsOk(l, v) && Located(l, v, k) && k < v.nw && v.na == 0
    requires MovedAt(v.ring, k, 0, r, 0) && MovedAt(v.ring, k, 0, r, v.nw)
    ensures CursorsOk(Upgrade(l, v.ring[k]), v.(ring := r, na := 1))
  {
  }

  lemma UpgradeNextCursors(l: List, v: View, k: nat, r: seq<Node>)
    requires CursorsOk(l, v) && Located(l, v, k) && k < v.nw && 0 < v.na <= k
    requires var p := UpgradePlace(v, k);
      MovedAt(v.ring, k, p, r, 0) && MovedAt(v.ring, k, p, r, v.na) && MovedAt(v.ring, k, p, r, v.nw)
    ensures CursorsOk(Upgrade(l, v.ring[k]), v.(ring := r, na := v.na + 1))
  {
  }

  lemma UpgradeCursors(l: List, v: View, k: nat)
    requires CursorsOk(l, v) && Located(l, v, k) && k < v.nw && v.na <= k
    ensures CursorsOk(Upgrade(l, v.ring[k]), UpgradeView(v, k))
  {
    var s, p := v.ring, UpgradePlace(v, k);
    var r := MoveTo(s, k, p);
    Moved(s, k, p, 0);
    Moved(s, k, p, v.na);
    Moved(s, k, p, v.nw);
    if v.na == 0 { UpgradeFirstCursors(l, v, k, r); } else { UpgradeNextCursors(l, v, k, r); }
  }

  lemma UpgradeLinks(l: List, v: View, k: nat)
    requires CursorsOk(l, v) && Located(l, v, k) && k < v.nw && v.na <= k
    ensures Upgrade(l, v.ring[k]).links
         == if k == v.na || k == |v.ring| - 1 then l.links
            else Rehook(l.links, v.ring[k], if v.na == 0 then l.tasks else NextOf(Unhook(l.links, v.ring[k]), l.lastParentDependsOn))
  {
  }

  lemma UpgradeShape(d: Dll<Node>, s: seq<Node>, blocked: seq<Node>, na: nat, k: nat)
    requires Shape(d, s, blocked) && na <= k < |s|
    ensures s[k] in d.next && s[k] in d.prev
    ensures k == na ==> Shape(d, MoveTo(s, k, k), blocked)
    ensures k == |s| - 1 ==> Shape(d, MoveTo(s, k, 0), blocked)
    ensures na < k < |s| - 1 ==>
      Shape(Rehook(d, s[k], if na == 0 then To(s[0]) else NextOf(Unhook(d, s[k]), To(s[na - 1]))), MoveTo(s, k, na), blocked)
  {
    RingNeighbours(d, s, k);
    if k == na { MoveSpecial(s, k); }
    if k == |s| - 1 { TurnShape(d, s, blocked); }
    if na < k < |s| - 1 { UpgradeMove(d, s, blocked, na, k); }
  }

  lemma UpgradeMove(d: Dll<Node>, s: seq<Node>, blocked: seq<Node>, na: nat, k: nat)
    requires Shape(d, s, blocked) && na < k < |s| - 1
    ensures s[k] in d.next && s[k] in d.prev
    ensures Shape(Rehook(d, s[k], if na == 0 then To(s[0]) else NextOf(Unhook(d, s[k]), To(s[na - 1]))), MoveTo(s, k, na), blocked)
  {
    var r := RemoveAt(s, k);
    if na > 0 {
      UnhookRing(d, s, k);
      NextOfAt(Unhook(d, s[k]), r, na - 1);
    }
    MoveShape(d, s, blocked, k, na, To(r[na]));
  }

  lemma UpgradeKeeps(l: List, v: View, k: nat)
    requires Inv(l, v) && v.na <= k < v.nw
    ensures v.ring[k] in l.links.next && v.ring[k] in l.links.prev
    ensures Inv(Upgrade(l, v.ring[k]), UpgradeView(v, k))
  {
    Locate(l, v, k);
    UpgradeCursors(l, v, k);
    UpgradeLinks(l, v, k);
    UpgradeShape(l.links, v.ring, v.blocked, v.na, k);
  }

  /** priority_list_downgrade_task: the schedulable task `x` starts to run. */
  function Downgrade(l: List, x: Node): List
    requires x in l.links.next && x in l.links.prev
  {
    var firstRunning := if l.firstRunning == Null then To(x) else l.firstRunning;
    if l.tasks == To(x) then
      l.(tasks := if l.links.next[x] != x then To(l.links.next[x]) else l.tasks,
         lastParentDependsOn := if l.lastParentDependsOn == To(x) then Null else l.lastParentDependsOn,
         firstRunning := firstRunning)
    else
      var l1 := l.(lastParentDependsOn := if l.lastParentDependsOn == To(x) then To(l.links.prev[x]) else l.lastParentDependsOn);
      if To(l.links.next[x]) == l.tasks || To(l.links.next[x]) == l.firstRunning then l1.(firstRunning := To(x))
      else l1.(links := Rehook(l.links, x, l.tasks), firstRunning := firstRunning)
  }

  /** A task that starts to run stays if it closes the schedulable part, and goes to the end otherwise. */
  function DowngradePlace(v: View, k: nat): int {
    if k > 0 && k == v.nw - 1 then k else |v.ring| - 1
  }

  function DowngradeView(v: View, k: nat): View
    requires v.na <= v.nw && k < v.nw <= |v.ring|
  {
    v.(ring := MoveTo(v.ring, k, DowngradePlace(v, k)), na := if k < v.na then v.na - 1 else v.na, nw := v.nw - 1)
  }

  lemma DowngradeFirstCursors(l: List, v: View, r: seq<Node>, w: View)
    requires CursorsOk(l, v) && Located(l, v, 0) && 0 < v.nw && w == DowngradeView(v, 0).(ring := r)
    requires var p := |v.ring| - 1;
      MovedAt(v.ring, 0, p, r, 0) && (w.na > 0 ==> MovedAt(v.ring, 0, p, r, w.na - 1)) && MovedAt(v.ring, 0, p, r, w.nw)
    ensures CursorsOk(Downgrade(l, v.ring[0]), w)
  {
  }

  lemma DowngradeLaterCursors(l: List, v: View, k: nat, r: seq<Node>, w: View)
    requires CursorsOk(l, v) && Located(l, v, k) && 0 < k < v.nw && w == DowngradeView(v, k).(ring := r)
    requires var p := DowngradePlace(v, k);
      MovedAt(v.ring, k, p, r, 0) && (w.na > 0 ==> MovedAt(v.ring, k, p, r, w.na - 1)) && MovedAt(v.ring, k, p, r, w.nw)
    ensures CursorsOk(Downgrade(l, v.ring[k]), w)
  {
  }

  lemma DowngradeCursors(l: List, v: View, k: nat)
    requires CursorsOk(l, v) && Located(l, v, k) && k < v.nw
    ensures CursorsOk(Downgrade(l, v.ring[k]), DowngradeView(v, k))
  {
    var s, p, w := v.ring, DowngradePlace(v, k), DowngradeView(v, k);
    Moved(s, k, p, 0);
    if w.na > 0 { Moved(s, k, p, w.na - 1); }
    Moved(s, k, p, w.nw);
    if k == 0 {
      DowngradeFirstCursors(l, v, w.ring, w);
    } else {
      DowngradeLaterCursors(l, v, k, w.ring, w);
    }
  }

  lemma DowngradeLinks(l: List, v: View, k: nat)
    requires CursorsOk(l, v) && Located(l, v, k) && k < v.nw
    ensures Downgrade(l, v.ring[k]).links
         == if k == 0 || k == v.nw - 1 then l.links else Rehook(l.links, v.ring[k], To(v.ring[0]))
  {
  }

  lemma DowngradeShape(d: Dll<Node>, s: seq<Node>, blocked: seq<Node>, nw: nat, k: nat)
    requires Shape(d, s, blocked) && k < nw <= |s|
    ensures s[k] in d.next && s[k] in d.prev
    ensures k == 0 ==> Shape(d, MoveTo(s, k, |s| - 1), blocked)
    ensures k == nw - 1 ==> Shape(d, MoveTo(s, k, k), blocked)
    ensures 0 < k < nw - 1 ==> Shape(Rehook(d, s[k], To(s[0])), MoveTo(s, k, |s| - 1), blocked)
  {
    RingNeighbours(d, s, k);
    if k == 0 { TurnShape(d, s, blocked); }
    if k == nw - 1 { MoveSpecial(s, k); }
    if 0 < k < nw - 1 { MoveShape(d, s, blocked, k, |s| - 1, To(s[0])); }
  }

  lemma DowngradedShape(l: List, v: View, k: nat)
    requires Shape(l.links, v.ring, v.blocked) && CursorsOk(l, v) && Located(l, v, k) && k < v.nw
    ensures Shape(Downgrade(l, v.ring[k]).links, DowngradeView(v, k).ring, v.blocked)
  {
    DowngradeLinks(l, v, k);
    DowngradeShape(l.links, v.ring, v.blocked, v.nw, k);
  }

  lemma DowngradeKeeps(l: List, v: View, k: nat)
    requires Inv(l, v) && k < v.nw
    ensures v.ring[k] in l.links.next && v.ring[k] in l.links.prev
    ensures Inv(Downgrade(l, v.ring[k]), DowngradeView(v, k))
  {
    Locate(l, v, k);
    DowngradeCursors(l, v, k);
    DowngradedShape(l, v, k);
  }

  // ---------- Every run ----------

  /** What a list knows about a task: awaited by its parent and schedulable, otherwise schedulable, running
      or blocked. */
  datatype Kind = Awaited | Plain | Running | Blocked

  type Kinds = map<Node, Kind>

  function KindAt(v: View, i: int): Kind {
    if i < v.na then Awaited else if i < v.nw then Plain else Running
  }

  /** The segments of `v` hold the tasks of each kind. */
  ghost predicate Holds(v: View, kinds: Kinds) {
    && (forall x :: x in kinds ==> x in v.ring || x in v.blocked)
    && (forall i :: 0 <= i < |v.ring| ==> v.ring[i] in kinds && kinds[v.ring[i]] == KindAt(v, i))
    && (forall i :: 0 <= i < |v.blocked| ==> v.blocked[i] in kinds && kinds[v.blocked[i]] == Blocked)
  }

  ghost predicate Represents(l: List, kinds: Kinds) {
    exists v :: Inv(l, v) && Holds(v, kinds)
  }

  function PlaceView(v: View, p: nat, x: Node, kind: Kind): View
    requires p <= |v.ring|
  {
    View(InsertAt(v.ring, p, x), v.na + (if kind == Awaited then 1 else 0), v.nw + (if kind == Running then 0 else 1), v.blocked)
  }

  predicate Fits(v: View, p: nat, kind: Kind) {
    match kind
    case Awaited => p <= v.na
    case Plain => v.na <= p <= v.nw
    case Running => v.nw <= p
    case Blocked => false
  }

  lemma InsertedHas(s: seq<Node>, p: nat, x: Node, y: Node)
    requires p <= |s| && (y == x || y in s)
    ensures y in InsertAt(s, p, x)
  {
    if y == x {
      Inserted(s, p, x, p);
    } else {
      var i :| 0 <= i < |s| && s[i] == y;
      Inserted(s, p, x, if i < p then i else i + 1);
    }
  }

  lemma PlaceHolds(v: View, p: nat, x: Node, kind: Kind, kinds: Kinds)
    requires Holds(v, kinds) && x !in kinds && p <= |v.ring| && v.na <= v.nw && Fits(v, p, kind)
    ensures Holds(PlaceView(v, p, x, kind), kinds[x := kind])
  {
    var w, after := PlaceView(v, p, x, kind), kinds[x := kind];
    Inserted(v.ring, p, x, 0);
    forall y | y in after ensures y in w.ring || y in w.blocked {
      if y == x || y in v.ring { InsertedHas(v.ring, p, x, y); }
    }
    forall i | 0 <= i < |w.ring| ensures w.ring[i] in after && after[w.ring[i]] == KindAt(w, i) {
      Inserted(v.ring, p, x, i);
    }
  }

  lemma RemoveHolds(v: View, k: nat, kinds: Kinds)
    requires Holds(v, kinds) && k < |v.ring| && Distinct(v.ring) && v.na <= v.nw
    ensures Holds(RemoveView(v, k), kinds - {v.ring[k]})
  {
    var w, x := RemoveView(v, k), v.ring[k];
    forall y | y in kinds && y != x && y in v.ring ensures y in w.ring {
      var i :| 0 <= i < |v.ring| && v.ring[i] == y;
      assert w.ring[if i < k then i else i - 1] == y;
    }
    forall i | 0 <= i < |w.ring|
      ensures w.ring[i] in kinds && w.ring[i] != x && kinds[w.ring[i]] == KindAt(w, i)
    {
      assert w.ring[i] == v.ring[if i < k then i else i + 1];
    }
  }

  lemma PlaceBlockedHolds(v: View, x: Node, kinds: Kinds)
    requires Holds(v, kinds) && x !in kinds
    ensures Holds(v.(blocked := v.blocked + [x]), kinds[x := Blocked])
  {
  }

  lemma RemovedMembers(s: seq<Node>, k: nat, y: Node)
    requires Distinct(s) && k < |s|
    ensures y in RemoveAt(s, k) <==> y in s && y != s[k]
  {
    var r := RemoveAt(s, k);
    if y in s && y != s[k] {
      var i :| 0 <= i < |s| && s[i] == y;
      assert r[if i < k then i else i - 1] == y;
    }
    if y in r {
      var i :| 0 <= i < |r| && r[i] == y;
      assert r[i] == s[if i < k then i else i + 1];
    }
  }

  lemma RemoveBlockedHolds(v: View, k: nat, kinds: Kinds)
    requires Holds(v, kinds) && k < |v.blocked| && Distinct(v.blocked)
    ensures Holds(v.(blocked := RemoveAt(v.blocked, k)), kinds - {v.blocked[k]})
  {
    var b, x := RemoveAt(v.blocked, k), v.blocked[k];
    forall y | y in kinds && y != x && y in v.blocked ensures y in b { RemovedMembers(v.blocked, k, y); }
    forall i | 0 <= i < |b| ensures b[i] in v.blocked && b[i] != x { RemovedMembers(v.blocked, k, b[i]); }
    forall i | 0 <= i < |v.ring| ensures v.ring[i] != x { }
  }

  datatype Op =
    | Enter(x: Node, begin: bool, awaited: bool)
    | EnterRunning(x: Node)
    | EnterBlocked(x: Node)
    | Leave(x: Node, isBlocked: bool)
    | Await(x: Node)
    | Start(x: Node)
    | Adjust(x: Node, begin: bool, awaited: bool)
    | Block(x: Node)
    | Unblock(x: Node, begin: bool, awaited: bool)

  predicate In(kinds: Kinds, x: Node, allowed: set<Kind>) {
    x in kinds && kinds[x] in allowed
  }

  /** What the callers guarantee, in terms of the task's kind and flags. */
  predicate Legal(kinds: Kinds, op: Op) {
    match op
    case Enter(x, _, _) => x !in kinds
    case EnterRunning(x) => x !in kinds
    case EnterBlocked(x) => x !in kinds
    case Leave(x, isBlocked) => x in kinds && (isBlocked <==> kinds[x] == Blocked)
    case Await(x) => In(kinds, x, {Plain})
    case Start(x) => In(kinds, x, {Awaited, Plain})
    case Adjust(x, _, _) => In(kinds, x, {Running})
    case Block(x) => In(kinds, x, {Awaited, Plain, Running})
    case Unblock(x, _, _) => In(kinds, x, {Blocked})
  }

  /** The whole effect of an operation on what the list stands for. */
  function After(kinds: Kinds, op: Op): Kinds {
    match op
    case Enter(x, _, awaited) => kinds[x := if awaited then Awaited else Plain]
    case EnterRunning(x) => kinds[x := Running]
    case EnterBlocked(x) => kinds[x := Blocked]
    case Leave(x, _) => kinds - {x}
    case Await(x) => kinds[x := Awaited]
    case Start(x) => kinds[x := Running]
    case Adjust(x, _, awaited) => kinds[x := if awaited then Awaited else Plain]
    case Block(x) => kinds[x := Blocked]
    case Unblock(x, _, awaited) => kinds[x := if awaited then Awaited else Plain]
  }

  predicate Linked(l: List, x: Node) {
    x in l.links.next && x in l.links.prev
  }

  /** priority_list_adjust_task: a running task is suspended. */
  function AdjustTask(l: List, x: Node, begin: bool, awaited: bool): List
    requires Linked(l, x)
  {
    Insert(Remove(l, x), x, begin, awaited)
  }

  /** priority_list_block_task. */
  function BlockTask(l: List, x: Node): List
    requires Linked(l, x)
  {
    InsertBlocked(Remove(l, x), x)
  }

  /** priority_list_unblock_task. */
  function UnblockTask(l: List, x: Node, begin: bool, awaited: bool): List
    requires Linked(l, x)
  {
    Insert(RemoveBlocked(l, x), x, begin, awaited)
  }

  function Apply(l: List, op: Op): List {
    match op
    case Enter(x, begin, awaited) => Insert(l, x, begin, awaited)
    case EnterRunning(x) => InsertRunning(l, x)
    case EnterBlocked(x) => InsertBlocked(l, x)
    case Leave(x, isBlocked) => if !Linked(l, x) then l else if isBlocked then RemoveBlocked(l, x) else Remove(l, x)
    case Await(x) => if !Linked(l, x) then l else Upgrade(l, x)
    case Start(x) => if !Linked(l, x) then l else Downgrade(l, x)
    case Adjust(x, begin, awaited) => if !Linked(l, x) then l else AdjustTask(l, x, begin, awaited)
    case Block(x) => if !Linked(l, x) then l else BlockTask(l, x)
    case Unblock(x, begin, awaited) => if !Linked(l, x) then l else UnblockTask(l, x, begin, awaited)
  }

  // Each operation has its own lemma.

  lemma HoldsNew(v: View, kinds: Kinds, x: Node)
    requires Holds(v, kinds) && x !in kinds
    ensures New(v, x)
  {
  }

  lemma Witness(l: List, v: View, kinds: Kinds)
    requires Inv(l, v) && Holds(v, kinds)
    ensures Represents(l, kinds)
  {
  }

  lemma InsertHolds(v: View, kinds: Kinds, x: Node, begin: bool, awaited: bool)
    requires Holds(v, kinds) && x !in kinds && v.na <= v.nw <= |v.ring|
    ensures Holds(InsertView(v, x, begin, awaited), kinds[x := if awaited then Awaited else Plain])
  {
    PlaceHolds(v, PlaceFor(v, begin, awaited), x, if awaited then Awaited else Plain, kinds);
  }

  lemma UpgradeHolds(v: View, k: nat, kinds: Kinds)
    requires Holds(v, kinds) && Distinct(v.ring) && v.na <= k < v.nw <= |v.ring|
    ensures Holds(UpgradeView(v, k), kinds[v.ring[k] := Awaited])
  {
    var x := v.ring[k];
    RemoveHolds(v, k, kinds);
    PlaceHolds(RemoveView(v, k), UpgradePlace(v, k), x, Awaited, kinds - {x});
    assert (kinds - {x})[x := Awaited] == kinds[x := Awaited];
  }

  lemma DowngradeHolds(v: View, k: nat, kinds: Kinds)
    requires Holds(v, kinds) && Distinct(v.ring) && v.na <= v.nw && k < v.nw <= |v.ring|
    ensures Holds(DowngradeView(v, k), kinds[v.ring[k] := Running])
  {
    var x := v.ring[k];
    RemoveHolds(v, k, kinds);
    PlaceHolds(RemoveView(v, k), DowngradePlace(v, k), x, Running, kinds - {x});
    assert (kinds - {x})[x := Running] == kinds[x := Running];
  }

  lemma EnterStep(l: List, v: View, kinds: Kinds, x: Node, begin: bool, awaited: bool)
    requires Inv(l, v) && Holds(v, kinds) && x !in kinds
    ensures Represents(Insert(l, x, begin, awaited), kinds[x := if awaited then Awaited else Plain])
  {
    HoldsNew(v, kinds, x);
    InsertKeeps(l, v, x, begin, awaited);
    InsertHolds(v, kinds, x, begin, awaited);
    Witness(Insert(l, x, begin, awaited), InsertView(v, x, begin, awaited), kinds[x := if awaited then Awaited else Plain]);
  }

  lemma EnterRunningStep(l: List, v: View, kinds: Kinds, x: Node)
    requires Inv(l, v) && Holds(v, kinds) && x !in kinds
    ensures Represents(InsertRunning(l, x), kinds[x := Running])
  {
    HoldsNew(v, kinds, x);
    InsertRunningKeeps(l, v, x);
    PlaceHolds(v, |v.ring|, x, Running, kinds);
    assert InsertAt(v.ring, |v.ring|, x) == v.ring + [x];
    Witness(InsertRunning(l, x), v.(ring := v.ring + [x]), kinds[x := Running]);
  }

  lemma EnterBlockedStep(l: List, v: View, kinds: Kinds, x: Node)
    requires Inv(l, v) && Holds(v, kinds) && x !in kinds
    ensures Represents(InsertBlocked(l, x), kinds[x := Blocked])
  {
    HoldsNew(v, kinds, x);
    InsertBlockedKeeps(l, v, x);
    PlaceBlockedHolds(v, x, kinds);
  }

  /** The position of a task that is not blocked. */
  lemma Position(v: View, kinds: Kinds, x: Node) returns (k: nat)
    requires Holds(v, kinds) && x in kinds && kinds[x] != Blocked
    ensures k < |v.ring| && v.ring[k] == x && kinds[x] == KindAt(v, k)
  {
    assert x in v.ring;
    k :| 0 <= k < |v.ring| && v.ring[k] == x;
  }

  lemma RemoveStep(l: List, v: View, kinds: Kinds, x: Node) returns (w: View)
    requires Inv(l, v) && Holds(v, kinds) && x in kinds && kinds[x] != Blocked
    ensures Linked(l, x) && Inv(Remove(l, x), w) && Holds(w, kinds - {x})
  {
    var k := Position(v, kinds, x);
    RemoveKeeps(l, v, k);
    RemoveHolds(v, k, kinds);
    w := RemoveView(v, k);
  }

  lemma RemoveBlockedStep(l: List, v: View, kinds: Kinds, x: Node) returns (w: View)
    requires Inv(l, v) && Holds(v, kinds) && x in kinds && kinds[x] == Blocked
    ensures Linked(l, x) && Inv(RemoveBlocked(l, x), w) && Holds(w, kinds - {x})
  {
    assert x in v.blocked;
    var k :| 0 <= k < |v.blocked| && v.blocked[k] == x;
    RemoveBlockedKeeps(l, v, k);
    RemoveBlockedHolds(v, k, kinds);
    w := v.(blocked := RemoveAt(v.blocked, k));
  }

  lemma AwaitStep(l: List, v: View, kinds: Kinds, x: Node)
    requires Inv(l, v) && Holds(v, kinds) && x in kinds && kinds[x] == Plain
    ensures Linked(l, x) && Represents(Upgrade(l, x), kinds[x := Awaited])
  {
    var k := Position(v, kinds, x);
    UpgradeKeeps(l, v, k);
    UpgradeHolds(v, k, kinds);
    Witness(Upgrade(l, x), UpgradeView(v, k), kinds[x := Awaited]);
  }

  lemma StartStep(l: List, v: View, kinds: Kinds, x: Node)
    requires Inv(l, v) && Holds(v, kinds) && x in kinds && (kinds[x] == Awaited || kinds[x] == Plain)
    ensures Linked(l, x) && Represents(Downgrade(l, x), kinds[x := Running])
  {
    var k := Position(v, kinds, x);
    DowngradeKeeps(l, v, k);
    DowngradeHolds(v, k, kinds);
    Witness(Downgrade(l, x), DowngradeView(v, k), kinds[x := Running]);
  }

  lemma AdjustStep(l: List, v: View, kinds: Kinds, x: Node, begin: bool, awaited: bool)
    requires Inv(l, v) && Holds(v, kinds) && x in kinds && kinds[x] == Running
    ensures Linked(l, x) && Represents(AdjustTask(l, x, begin, awaited), kinds[x := if awaited then Awaited else Plain])
  {
    var w := RemoveStep(l, v, kinds, x);
    EnterStep(Remove(l, x), w, kinds - {x}, x, begin, awaited);
    var kind := if awaited then Awaited else Plain;
    assert (kinds - {x})[x := kind] == kinds[x := kind];
  }

  lemma BlockStep(l: List, v: View, kinds: Kinds, x: Node)
    requires Inv(l, v) && Holds(v, kinds) && x in kinds && kinds[x] != Blocked
    ensures Linked(l, x) && Represents(BlockTask(l, x), kinds[x := Blocked])
  {
    var w := RemoveStep(l, v, kinds, x);
    EnterBlockedStep(Remove(l, x), w, kinds - {x}, x);
    assert (kinds - {x})[x := Blocked] == kinds[x := Blocked];
  }

  lemma UnblockStep(l: List, v: View, kinds: Kinds, x: Node, begin: bool, awaited: bool)
    requires Inv(l, v) && Holds(v, kinds) && x in kinds && kinds[x] == Blocked
    ensures Linked(l, x) && Represents(UnblockTask(l, x, begin, awaited), kinds[x := if awaited then Awaited else Plain])
  {
    var w := RemoveBlockedStep(l, v, kinds, x);
    EnterStep(RemoveBlocked(l, x), w, kinds - {x}, x, begin, awaited);
    var kind := if awaited then Awaited else Plain;
    assert (kinds - {x})[x := kind] == kinds[x := kind];
  }

  lemma ApplyKeeps(l: List, kinds: Kinds, op: Op)
    requires Represents(l, kinds) && Legal(kinds, op)
    ensures Represents(Apply(l, op), After(kinds, op))
  {
    var v :| Inv(l, v) && Holds(v, kinds);
    match op
    case Enter(x, begin, awaited) => EnterStep(l, v, kinds, x, begin, awaited);
    case EnterRunning(x) => EnterRunningStep(l, v, kinds, x);
    case EnterBlocked(x) => EnterBlockedStep(l, v, kinds, x);
    case Leave(x, isBlocked) => LeaveStep(l, v, kinds, x, isBlocked);
    case Await(x) => AwaitStep(l, v, kinds, x);
    case Start(x) => StartStep(l, v, kinds, x);
    case Adjust(x, begin, awaited) => AdjustStep(l, v, kinds, x, begin, awaited);
    case Block(x) => BlockStep(l, v, kinds, x);
    case Unblock(x, begin, awaited) => UnblockStep(l, v, kinds, x, begin, awaited);
  }

  lemma LeaveStep(l: List, v: View, kinds: Kinds, x: Node, isBlocked: bool)
    requires Inv(l, v) && Holds(v, kinds) && x in kinds && (isBlocked <==> kinds[x] == Blocked)
    ensures Linked(l, x) && Represents(if isBlocked then RemoveBlocked(l, x) else Remove(l, x), kinds - {x})
  {
    if isBlocked {
      var w := RemoveBlockedStep(l, v, kinds, x);
    } else {
      var w := RemoveStep(l, v, kinds, x);
    }
  }

  function ApplyAll(l: List, ops: seq<Op>): List
    decreases |ops|
  {
    if ops == [] then l else ApplyAll(Apply(l, ops[0]), ops[1..])
  }

  function AfterAll(kinds: Kinds, ops: seq<Op>): Kinds
    decreases |ops|
  {
    if ops == [] then kinds else AfterAll(After(kinds, ops[0]), ops[1..])
  }

  predicate LegalAll(kinds: Kinds, ops: seq<Op>)
    decreases |ops|
  {
    ops == [] || (Legal(kinds, ops[0]) && LegalAll(After(kinds, ops[0]), ops[1..]))
  }

  lemma {:induction false} RunKeeps(l: List, kinds: Kinds, ops: seq<Op>)
    requires Represents(l, kinds) && LegalAll(kinds, ops)
    ensures Represents(ApplyAll(l, ops), AfterAll(kinds, ops))
    decreases |ops|
  {
    if ops != [] {
      ApplyKeeps(l, kinds, ops[0]);
      RunKeeps(Apply(l, ops[0]), After(kinds, ops[0]), ops[1..]);
    }
  }

  /** Over every run the pointers spell awaited, plain and running segments holding exactly the tasks of
      those kinds, with both cursors at the boundaries. */
  lemma ListTheorem(ops: seq<Op>)
    requires LegalAll(map[], ops)
    ensures Represents(ApplyAll(EmptyList, ops), AfterAll(map[], ops))
  {
    var v := View([], 0, 0, []);
    assert Inv(EmptyList, v) && Holds(v, map[]);
    RunKeeps(EmptyList, map[], ops);
  }

  /** What the scheduler reads off the head. */
  lemma HeadIsBest(l: List, kinds: Kinds)
    requires Represents(l, kinds)
    ensures l.tasks == Null <==> forall x :: x in kinds ==> kinds[x] == Blocked
    ensures l.tasks.To? ==> l.tasks.node in kinds && kinds[l.tasks.node] != Blocked
    ensures l.tasks.To? && kinds[l.tasks.node] != Awaited ==> forall x :: x in kinds ==> kinds[x] != Awaited
    ensures l.tasks.To? && kinds[l.tasks.node] == Running ==> forall x :: x in kinds ==> kinds[x] == Running || kinds[x] == Blocked
    ensures l.blockedTasks == Null <==> forall x :: x in kinds ==> kinds[x] != Blocked
  {
    var v :| Inv(l, v) && Holds(v, kinds);
    forall x | x in kinds && kinds[x] != Blocked
      ensures v.ring != [] && (kinds[v.ring[0]] == Running ==> kinds[x] == Running)
      ensures kinds[v.ring[0]] != Awaited ==> kinds[x] != Awaited
    {
      var k := Position(v, kinds, x);
    }
    if v.ring != [] { assert v.ring[0] in kinds; }
    if v.blocked != [] { assert v.blocked[0] in kinds; }
  }

  lemma KnownIsLinked(l: List, kinds: Kinds, x: Node)
    requires Represents(l, kinds) && x in kinds
    ensures Linked(l, x)
  {
    var v :| Inv(l, v) && Holds(v, kinds);
    if x in v.ring {
      var k :| 0 <= k < |v.ring| && v.ring[k] == x;
      RingNeighbours(l.links, v.ring, k);
    } else {
      var k :| 0 <= k < |v.blocked| && v.blocked[k] == x;
      RingNeighbours(l.links, v.blocked, k);
    }
  }

  lemma OthersKnown(v: View, kinds: Kinds, x: Node)
    requires Holds(v, kinds) && x in kinds && |v.ring| + |v.blocked| > 1 && Distinct(v.ring) && Distinct(v.blocked)
    ensures kinds - {x} != map[]
  {
    var a := if v.ring != [] then v.ring[0] else v.blocked[1];
    var b := if v.blocked != [] then v.blocked[0] else v.ring[1];
    assert a in kinds && b in kinds && a != b;
    assert a in kinds - {x} || b in kinds - {x};
  }

  /** How a removal sees that the list has become empty. */
  lemma LastOneOut(l: List, kinds: Kinds, x: Node)
    requires Represents(l, kinds) && x in kinds
    ensures Linked(l, x)
    ensures kinds[x] != Blocked ==> (kinds - {x} == map[] <==> l.tasks == To(x) && l.links.next[x] == x && l.blockedTasks == Null)
    ensures kinds[x] == Blocked ==> (kinds - {x} == map[] <==> l.blockedTasks == To(x) && l.links.next[x] == x && l.tasks == Null)
  {
    KnownIsLinked(l, kinds, x);
    var v :| Inv(l, v) && Holds(v, kinds);
    if |v.ring| + |v.blocked| > 1 {
      OthersKnown(v, kinds, x);
    }
    if v.ring != [] { RingNeighbours(l.links, v.ring, 0); }
    if v.blocked != [] { RingNeighbours(l.links, v.blocked, 0); }
  }

  // ---------- The order ----------

  /** The tasks of each kind in the order of the list. */
  datatype Order = Order(awaited: seq<Node>, plain: seq<Node>, running: seq<Node>, blocked: seq<Node>)

  function ViewOf(q: Order): View {
    View(q.awaited + q.plain + q.running, |q.awaited|, |q.awaited| + |q.plain|, q.blocked)
  }

  ghost predicate InOrder(l: List, q: Order) {
    Inv(l, ViewOf(q))
  }

  function Drop(s: seq<Node>, x: Node): seq<Node> {
    if s == [] then [] else if s[0] == x then s[1..] else [s[0]] + Drop(s[1..], x)
  }

  function Enqueue(s: seq<Node>, x: Node, begin: bool): seq<Node> {
    if begin then [x] + s else s + [x]
  }

  function Entered(q: Order, x: Node, begin: bool, awaited: bool): Order {
    if awaited then q.(awaited := Enqueue(q.awaited, x, begin)) else q.(plain := Enqueue(q.plain, x, begin))
  }

  function Left(q: Order, x: Node): Order {
    Order(Drop(q.awaited, x), Drop(q.plain, x), Drop(q.running, x), Drop(q.blocked, x))
  }

  predicate EndsIn(s: seq<Node>, x: Node) {
    s != [] && s[|s| - 1] == x
  }

  /** `x` closes the list and is not next to the awaited tasks. */
  predicate Closes(q: Order, x: Node) {
    q.running == [] && q.awaited != [] && EndsIn(q.plain, x) && q.plain[0] != x
  }

  /** `x` closes the schedulable part and is not the head. */
  predicate ClosesSchedulable(q: Order, x: Node) {
    EndsIn(q.awaited + q.plain, x) && |q.awaited + q.plain| > 1
  }

  /** The order an operation leaves: a task enters its segment at the end asked for; an awaited one goes behind
      the awaited ones, or to the front if it closes the list; one that starts goes to the end, or stays in front
      of the running ones if it closes the schedulable part; a blocked one goes to the end of the blocked ones. */
  function Next(q: Order, op: Op): Order {
    match op
    case Enter(x, begin, awaited) => Entered(q, x, begin, awaited)
    case EnterRunning(x) => q.(running := q.running + [x])
    case EnterBlocked(x) => q.(blocked := q.blocked + [x])
    case Leave(x, _) => Left(q, x)
    case Await(x) => Entered(Left(q, x), x, Closes(q, x), true)
    case Start(x) => var r := Left(q, x); r.(running := Enqueue(q.running, x, ClosesSchedulable(q, x)))
    case Adjust(x, begin, awaited) => Entered(Left(q, x), x, begin, awaited)
    case Block(x) => var r := Left(q, x); r.(blocked := r.blocked + [x])
    case Unblock(x, begin, awaited) => Entered(Left(q, x), x, begin, awaited)
  }

  lemma {:induction false} DropAbsent(s: seq<Node>, x: Node)
    requires x !in s
    ensures Drop(s, x) == s
  {
    if s != [] { DropAbsent(s[1..], x); }
  }

  lemma RemoveLater(s: seq<Node>, k: nat)
    requires 0 < k < |s|
    ensures RemoveAt(s, k) == [s[0]] + RemoveAt(s[1..], k - 1)
  {
    var a, b := RemoveAt(s, k), [s[0]] + RemoveAt(s[1..], k - 1);
    forall i | 0 <= i < |a| ensures a[i] == b[i] { }
  }

  lemma {:induction false} DropAt(s: seq<Node>, k: nat)
    requires Distinct(s) && k < |s|
    ensures Drop(s, s[k]) == RemoveAt(s, k)
  {
    if k > 0 {
      DropAt(s[1..], k - 1);
      assert s[1..][k - 1] == s[k];
      RemoveLater(s, k);
    }
  }

  lemma {:induction false} DropAppended(s: seq<Node>, x: Node)
    requires x !in s
    ensures Drop(s + [x], x) == s
  {
    if s != [] {
      DropAppended(s[1..], x);
      assert (s + [x])[1..] == s[1..] + [x];
    }
  }

  lemma DropEnqueued(s: seq<Node>, x: Node, begin: bool)
    requires x !in s
    ensures Drop(Enqueue(s, x, begin), x) == s
  {
    if !begin { DropAppended(s, x); } else { assert Enqueue(s, x, begin)[1..] == s; }
  }

  lemma {:induction false} DropLacks(s: seq<Node>, x: Node)
    requires Distinct(s)
    ensures x !in Drop(s, x) && Drop(Drop(s, x), x) == Drop(s, x)
  {
    if x in s {
      var k :| 0 <= k < |s| && s[k] == x;
      DropAt(s, k);
      RemoveAtLacks(s, k);
      DropAbsent(Drop(s, x), x);
    } else {
      DropAbsent(s, x);
      DropAbsent(Drop(s, x), x);
    }
  }

  /** No operation changes the order or the kind of the other tasks. */
  lemma OthersStay(q: Order, op: Op)
    requires Distinct(q.awaited) && Distinct(q.plain) && Distinct(q.running) && Distinct(q.blocked)
    requires (op.Enter? || op.EnterRunning? || op.EnterBlocked?) ==>
               op.x !in q.awaited && op.x !in q.plain && op.x !in q.running && op.x !in q.blocked
    requires op.Start? ==> op.x !in q.running
    ensures Left(Next(q, op), op.x) == Left(q, op.x)
  {
    var x := op.x;
    DropLacks(q.awaited, x);
    DropLacks(q.plain, x);
    DropLacks(q.running, x);
    DropLacks(q.blocked, x);
    if op.Enter? || op.EnterRunning? || op.EnterBlocked? {
      DropAbsent(q.awaited, x);
      DropAbsent(q.plain, x);
      DropAbsent(q.running, x);
      DropAbsent(q.blocked, x);
    }
    if op.Start? {
      DropAbsent(q.running, x);
      DropEnqueued(q.running, x, ClosesSchedulable(q, x));
    }
    EnteredStays(q, op);
  }

  lemma EnteredStays(q: Order, op: Op)
    requires op.Enter? || op.EnterRunning? || op.EnterBlocked? ==>
               op.x !in q.awaited && op.x !in q.plain && op.x !in q.running && op.x !in q.blocked
    requires var r := Left(q, op.x); op.x !in r.awaited && op.x !in r.plain && op.x !in r.running && op.x !in r.blocked
    ensures op.Enter? ==> Left(Next(q, op), op.x) == Left(q, op.x)
    ensures op.EnterRunning? ==> Drop(Next(q, op).running, op.x) == Drop(q.running, op.x)
    ensures op.EnterBlocked? ==> Drop(Next(q, op).blocked, op.x) == Drop(q.blocked, op.x)
    ensures op.Await? || op.Adjust? || op.Unblock? || op.Block? ==> Left(Next(q, op), op.x) == Left(Left(q, op.x), op.x)
  {
    var x, r := op.x, Left(q, op.x);
    match op {
      case Enter(_, begin, awaited) =>
        DropEnqueued(q.awaited, x, begin);
        DropEnqueued(q.plain, x, begin);
        DropAbsent(q.awaited, x);
        DropAbsent(q.plain, x);
      case EnterRunning(_) => DropEnqueued(q.running, x, false); DropAbsent(q.running, x);
      case EnterBlocked(_) => DropEnqueued(q.blocked, x, false); DropAbsent(q.blocked, x);
      case Leave(_, _) =>
      case Start(_) =>
      case Await(_) => DropEnqueued(r.awaited, x, Closes(q, x)); DropAbsent(r.awaited, x);
      case Adjust(_, begin, awaited) => ReenteredStays(r, x, begin);
      case Unblock(_, begin, awaited) => ReenteredStays(r, x, begin);
      case Block(_) => DropEnqueued(r.blocked, x, false); DropAbsent(r.blocked, x);
    }
  }

  lemma ReenteredStays(r: Order, x: Node, begin: bool)
    requires x !in r.awaited && x !in r.plain
    ensures forall awaited :: Left(Entered(r, x, begin, awaited), x) == Left(r, x)
  {
    DropEnqueued(r.awaited, x, begin);
    DropEnqueued(r.plain, x, begin);
    DropAbsent(r.awaited, x);
    DropAbsent(r.plain, x);
  }

  // The views of the segments.

  lemma InsertMiddle(a: seq<Node>, b: seq<Node>, x: Node)
    ensures InsertAt(a + b, |a|, x) == a + [x] + b
  {
    assert (a + b)[..|a|] == a && (a + b)[|a|..] == b;
  }

  lemma RemoveMiddle(a: seq<Node>, b: seq<Node>, k: nat, c: seq<Node>)
    requires k < |b|
    ensures RemoveAt(a + b + c, |a| + k) == a + RemoveAt(b, k) + c
  {
    var s, r := a + b + c, a + RemoveAt(b, k) + c;
    forall i | 0 <= i < |r| ensures RemoveAt(s, |a| + k)[i] == r[i] { }
  }

  lemma Joined(a: seq<Node>, p: seq<Node>, r: seq<Node>)
    ensures a + p + r == a + (p + r)
  {
  }

  /** `x` at one end of the first or of the second segment. */
  lemma JoinedWith(a: seq<Node>, p: seq<Node>, r: seq<Node>, x: Node)
    ensures InsertAt(a + p + r, 0, x) == [x] + a + p + r
    ensures InsertAt(a + p + r, |a|, x) == a + [x] + p + r == a + ([x] + p) + r
    ensures InsertAt(a + p + r, |a| + |p|, x) == a + (p + [x]) + r
  {
    JoinedFirst(a, p, r, x);
    Joined(a, p, r);
    InsertMiddle(a, p + r, x);
    Joined(a + [x], p, r);
    Joined(a, [x], p);
    InsertMiddle(a + p, r, x);
    Joined(a, p, [x]);
  }

  lemma JoinedFirst(a: seq<Node>, p: seq<Node>, r: seq<Node>, x: Node)
    ensures InsertAt(a + p + r, 0, x) == [x] + a + p + r
  {
    InsertMiddle([], a + p + r, x);
    assert [] + (a + p + r) == a + p + r && [] + [x] == [x];
    Joined([x], a, p);
    Joined([x], a + p, r);
  }

  lemma EnteredView(q: Order, x: Node, begin: bool, awaited: bool)
    ensures ViewOf(Entered(q, x, begin, awaited)) == InsertView(ViewOf(q), x, begin, awaited)
  {
    JoinedWith(q.awaited, q.plain, q.running, x);
    assert [] + [x] == [x];
  }

  /** A task is in one segment. */
  lemma Segments(q: Order)
    requires Distinct(ViewOf(q).ring)
    ensures Distinct(q.awaited) && Distinct(q.plain) && Distinct(q.running)
    ensures forall x :: x in q.awaited ==> x !in q.plain && x !in q.running
    ensures forall x :: x in q.plain ==> x !in q.running
  {
    var s, a, b := ViewOf(q).ring, |q.awaited|, |q.awaited| + |q.plain|;
    forall i | 0 <= i < |q.awaited| ensures q.awaited[i] == s[i] { }
    forall i | 0 <= i < |q.plain| ensures q.plain[i] == s[a + i] { }
    forall i | 0 <= i < |q.running| ensures q.running[i] == s[b + i] { }
  }

  lemma LeftAwaited(q: Order, x: Node, k: nat)
    requires k < |q.awaited| && x == q.awaited[k] && Distinct(q.awaited) && x !in q.plain && x !in q.running && x !in q.blocked
    ensures ViewOf(Left(q, x)) == RemoveView(ViewOf(q), k)
  {
    var a, p, r := q.awaited, q.plain, q.running;
    Joined(a, p, r);
    RemoveMiddle([], a, k, p + r);
    assert [] + a + (p + r) == a + (p + r) && [] + RemoveAt(a, k) + (p + r) == RemoveAt(a, k) + (p + r);
    Joined(RemoveAt(a, k), p, r);
    DropAt(a, k);
    DropAbsent(p, x);
    DropAbsent(r, x);
    DropAbsent(q.blocked, x);
  }

  lemma LeftPlain(q: Order, x: Node, k: nat)
    requires k < |q.plain| && x == q.plain[k] && Distinct(q.plain) && x !in q.awaited && x !in q.running && x !in q.blocked
    ensures ViewOf(Left(q, x)) == RemoveView(ViewOf(q), |q.awaited| + k)
  {
    RemoveMiddle(q.awaited, q.plain, k, q.running);
    DropAbsent(q.awaited, x);
    DropAt(q.plain, k);
    DropAbsent(q.running, x);
    DropAbsent(q.blocked, x);
  }

  lemma LeftRunning(q: Order, x: Node, k: nat)
    requires k < |q.running| && x == q.running[k] && Distinct(q.running) && x !in q.awaited && x !in q.plain && x !in q.blocked
    ensures ViewOf(Left(q, x)) == RemoveView(ViewOf(q), |q.awaited| + |q.plain| + k)
  {
    var s, r := q.awaited + q.plain, q.running;
    RemoveMiddle(s, r, k, []);
    assert s + r + [] == s + r && s + RemoveAt(r, k) + [] == s + RemoveAt(r, k);
    DropAbsent(q.awaited, x);
    DropAbsent(q.plain, x);
    DropAt(r, k);
    DropAbsent(q.blocked, x);
  }

  lemma LeftView(q: Order, k: nat)
    requires Distinct(ViewOf(q).ring) && k < |ViewOf(q).ring| && ViewOf(q).ring[k] !in q.blocked
    ensures ViewOf(Left(q, ViewOf(q).ring[k])) == RemoveView(ViewOf(q), k)
  {
    var x := ViewOf(q).ring[k];
    Segments(q);
    if k < |q.awaited| {
      assert x == q.awaited[k];
      LeftAwaited(q, x, k);
    } else if k < |q.awaited| + |q.plain| {
      assert x == q.plain[k - |q.awaited|];
      LeftPlain(q, x, k - |q.awaited|);
    } else {
      assert x == q.running[k - |q.awaited| - |q.plain|];
      LeftRunning(q, x, k - |q.awaited| - |q.plain|);
    }
  }

  lemma LeftBlockedView(q: Order, k: nat)
    requires Distinct(q.blocked) && k < |q.blocked| && q.blocked[k] !in ViewOf(q).ring
    ensures ViewOf(Left(q, q.blocked[k])) == ViewOf(q).(blocked := RemoveAt(q.blocked, k))
  {
    var x := q.blocked[k];
    assert forall y :: y in q.awaited || y in q.plain || y in q.running ==> y in ViewOf(q).ring;
    DropAt(q.blocked, k);
    DropAbsent(q.awaited, x);
    DropAbsent(q.plain, x);
    DropAbsent(q.running, x);
  }

  // Each operation on the pointers leaves the order of `Next`.

  lemma EnterOrder(l: List, q: Order, x: Node, begin: bool, awaited: bool)
    requires InOrder(l, q) && New(ViewOf(q), x)
    ensures InOrder(Insert(l, x, begin, awaited), Entered(q, x, begin, awaited))
  {
    InsertKeeps(l, ViewOf(q), x, begin, awaited);
    EnteredView(q, x, begin, awaited);
  }

  lemma EnterRunningOrder(l: List, q: Order, x: Node)
    requires InOrder(l, q) && New(ViewOf(q), x)
    ensures InOrder(InsertRunning(l, x), q.(running := q.running + [x]))
  {
    InsertRunningKeeps(l, ViewOf(q), x);
    Joined(q.awaited + q.plain, q.running, [x]);
  }

  lemma EnterBlockedOrder(l: List, q: Order, x: Node)
    requires InOrder(l, q) && New(ViewOf(q), x)
    ensures InOrder(InsertBlocked(l, x), q.(blocked := q.blocked + [x]))
  {
    InsertBlockedKeeps(l, ViewOf(q), x);
  }

  lemma LeaveOrder(l: List, q: Order, x: Node)
    requires InOrder(l, q) && x in ViewOf(q).ring
    ensures Linked(l, x) && InOrder(Remove(l, x), Left(q, x)) && New(ViewOf(Left(q, x)), x)
  {
    var v := ViewOf(q);
    var k :| 0 <= k < |v.ring| && v.ring[k] == x;
    RemoveKeeps(l, v, k);
    LeftView(q, k);
    RemoveAtLacks(v.ring, k);
  }

  lemma LeaveBlockedOrder(l: List, q: Order, x: Node)
    requires InOrder(l, q) && x in q.blocked
    ensures Linked(l, x) && InOrder(RemoveBlocked(l, x), Left(q, x)) && New(ViewOf(Left(q, x)), x)
  {
    var v := ViewOf(q);
    var k :| 0 <= k < |v.blocked| && v.blocked[k] == x;
    assert forall t :: t in v.ring ==> t !in v.blocked;
    RemoveBlockedKeeps(l, v, k);
    LeftBlockedView(q, k);
    RemoveAtLacks(v.blocked, k);
  }

  lemma PlainAt(q: Order, x: Node) returns (k: nat)
    requires Distinct(ViewOf(q).ring) && x in q.plain
    ensures k < |q.plain| && q.plain[k] == x && ViewOf(q).ring[|q.awaited| + k] == x
    ensures Closes(q, x) <==> q.awaited != [] && k != 0 && |q.awaited| + k == |ViewOf(q).ring| - 1
  {
    Segments(q);
    k :| 0 <= k < |q.plain| && q.plain[k] == x;
  }

  lemma AwaitedView(q: Order, x: Node, k: nat, v: View)
    requires v == ViewOf(q) && |q.awaited| <= k < |q.awaited| + |q.plain| && v.ring[k] == x
    requires Closes(q, x) <==> q.awaited != [] && k != |q.awaited| && k == |v.ring| - 1
    requires ViewOf(Left(q, x)) == RemoveView(v, k)
    ensures ViewOf(Next(q, Await(x))) == UpgradeView(v, k)
  {
    EnteredView(Left(q, x), x, Closes(q, x), true);
  }

  lemma AwaitOrder(l: List, q: Order, x: Node)
    requires InOrder(l, q) && x in q.plain
    ensures Linked(l, x) && InOrder(Upgrade(l, x), Next(q, Await(x)))
  {
    var j := PlainAt(q, x);
    var k := |q.awaited| + j;
    OneRing(l, ViewOf(q), k);
    LeftView(q, k);
    AwaitedView(q, x, k, ViewOf(q));
    UpgradeKeeps(l, ViewOf(q), k);
  }

  lemma OneRing(l: List, v: View, k: nat)
    requires Inv(l, v) && k < |v.ring|
    ensures v.ring[k] !in v.blocked && Distinct(v.ring)
  {
    assert v.ring[k] in v.ring;
  }

  lemma SchedulableAt(q: Order, x: Node) returns (k: nat)
    requires Distinct(ViewOf(q).ring) && (x in q.awaited || x in q.plain)
    ensures k < |q.awaited| + |q.plain| && ViewOf(q).ring[k] == x && x !in q.running
    ensures ClosesSchedulable(q, x) <==> k > 0 && k == |q.awaited| + |q.plain| - 1
  {
    Segments(q);
    var s := q.awaited + q.plain;
    assert x in s;
    k :| 0 <= k < |s| && s[k] == x;
    assert ViewOf(q).ring[k] == s[k] && ViewOf(q).ring[|s| - 1] == s[|s| - 1];
  }

  /** `x` in front of the running tasks, or behind them. */
  lemma StartedView(r: Order, x: Node, front: bool)
    ensures var v, w := ViewOf(r), ViewOf(r.(running := Enqueue(r.running, x, front)));
      w == v.(ring := InsertAt(v.ring, if front then v.nw else |v.ring|, x))
  {
    var s := r.awaited + r.plain;
    InsertMiddle(s, r.running, x);
    InsertMiddle(s + r.running, [], x);
    assert s + r.running + [] == s + r.running && s + r.running + [x] + [] == s + r.running + [x];
    Joined(s, [x], r.running);
    Joined(s, r.running, [x]);
  }

  lemma StartView(q: Order, x: Node, k: nat, v: View)
    requires v == ViewOf(q) && k < |q.awaited| + |q.plain| && v.ring[k] == x && x !in q.running
    requires ClosesSchedulable(q, x) <==> k > 0 && k == |q.awaited| + |q.plain| - 1
    requires ViewOf(Left(q, x)) == RemoveView(v, k)
    ensures ViewOf(Next(q, Start(x))) == DowngradeView(v, k)
  {
    DropAbsent(q.running, x);
    StartedView(Left(q, x), x, ClosesSchedulable(q, x));
  }

  lemma StartOrder(l: List, q: Order, x: Node)
    requires InOrder(l, q) && (x in q.awaited || x in q.plain)
    ensures Linked(l, x) && InOrder(Downgrade(l, x), Next(q, Start(x)))
  {
    var k := SchedulableAt(q, x);
    OneRing(l, ViewOf(q), k);
    LeftView(q, k);
    StartView(q, x, k, ViewOf(q));
    DowngradeKeeps(l, ViewOf(q), k);
  }

  /** What the callers guarantee, in terms of the order. */
  predicate Allowed(q: Order, op: Op) {
    var x := op.x;
    match op
    case Enter(_, _, _) => New(ViewOf(q), x)
    case EnterRunning(_) => New(ViewOf(q), x)
    case EnterBlocked(_) => New(ViewOf(q), x)
    case Leave(_, isBlocked) => if isBlocked then x in q.blocked else x in ViewOf(q).ring
    case Await(_) => x in q.plain
    case Start(_) => x in q.awaited || x in q.plain
    case Adjust(_, _, _) => x in q.running
    case Block(_) => x in ViewOf(q).ring
    case Unblock(_, _, _) => x in q.blocked
  }

  /** Every operation leaves the list in the order of `Next`. */
  lemma OrderStep(l: List, q: Order, op: Op)
    requires InOrder(l, q) && Allowed(q, op)
    ensures InOrder(Apply(l, op), Next(q, op))
  {
    match op {
      case Enter(x, begin, awaited) => EnterOrder(l, q, x, begin, awaited);
      case EnterRunning(x) => EnterRunningOrder(l, q, x);
      case EnterBlocked(x) => EnterBlockedOrder(l, q, x);
      case Leave(x, isBlocked) => if isBlocked { LeaveBlockedOrder(l, q, x); } else { LeaveOrder(l, q, x); }
      case Await(x) => AwaitOrder(l, q, x);
      case Start(x) => StartOrder(l, q, x);
      case Adjust(x, begin, awaited) =>
        assert ViewOf(q).ring[|q.awaited| + |q.plain|..] == q.running;
        LeaveOrder(l, q, x);
        EnterOrder(Remove(l, x), Left(q, x), x, begin, awaited);
      case Block(x) =>
        LeaveOrder(l, q, x);
        EnterBlockedOrder(Remove(l, x), Left(q, x), x);
      case Unblock(x, begin, awaited) =>
        LeaveBlockedOrder(l, q, x);
        EnterOrder(RemoveBlocked(l, x), Left(q, x), x, begin, awaited);
    }
  }

  function NextAll(q: Order, ops: seq<Op>): Order
    decreases |ops|
  {
    if ops == [] then q else NextAll(Next(q, ops[0]), ops[1..])
  }

  predicate AllowedAll(q: Order, ops: seq<Op>)
    decreases |ops|
  {
    ops == [] || (Allowed(q, ops[0]) && AllowedAll(Next(q, ops[0]), ops[1..]))
  }

  /** Over every run the pointers spell the tasks in that order. */
  lemma {:induction false} OrderTheorem(l: List, q: Order, ops: seq<Op>)
    requires InOrder(l, q) && AllowedAll(q, ops)
    ensures InOrder(ApplyAll(l, ops), NextAll(q, ops))
    decreases |ops|
  {
    if ops != [] {
      OrderStep(l, q, ops[0]);
      OrderTheorem(Apply(l, ops[0]), Next(q, ops[0]), ops[1..]);
    }
  }

  lemma OrderStarts()
    ensures InOrder(EmptyList, Order([], [], [], []))
  {
  }

  /** The kinds of an order. */
  lemma AllowedIs(q: Order, kinds: Kinds, op: Op)
    requires Holds(ViewOf(q), kinds) && Legal(kinds, op) && Distinct(ViewOf(q).ring)
    ensures Allowed(q, op)
  {
    var v, x := ViewOf(q), op.x;
    if x in kinds && kinds[x] != Blocked {
      var k := Position(v, kinds, x);
      if k < |q.awaited| { assert x == q.awaited[k]; }
      else if k < |q.awaited| + |q.plain| { assert x == q.plain[k - |q.awaited|]; }
      else { assert x == q.running[k - |q.awaited| - |q.plain|]; }
    }
  }

  /** The list that is updated in place. */
  class ChildrenList {
    var links: Dll<Node>
    var tasks: Ptr
    var lastParentDependsOn: Ptr
    var firstRunning: Ptr
    var blockedTasks: Ptr
    ghost var kinds: Kinds

    function Cur(): List
      reads this
    {
      List(links, tasks, lastParentDependsOn, firstRunning, blockedTasks)
    }

    ghost predicate Valid()
      reads this
    {
      Represents(Cur(), kinds)
    }

    constructor ()
      ensures Valid() && kinds == map[]
    {
      links, tasks, lastParentDependsOn, firstRunning, blockedTasks := Dll(map[], map[]), Null, Null, Null, Null;
      kinds := map[];
      new;
      ListTheorem([]);
    }

    method LinkIn(x: Node, p: Ptr)
      modifies this`links
      ensures links == Hook(old(links), x, p)
    {
      if p.To? && p.node in links.prev {
        var prev := links.prev[p.node];
        links := Dll(links.next[x := p.node], links.prev[x := prev]);
        links := Dll(links.next[prev := x], links.prev[p.node := x]);
      } else {
        links := Dll(links.next[x := x], links.prev[x := x]);
      }
    }

    method TakeOut(x: Node)
      requires Linked(Cur(), x)
      modifies this`links
      ensures links == Unhook(old(links), x)
    {
      var prev, next := links.prev[x], links.next[x];
      links := Dll(links.next, links.prev[next := prev]);
      links := Dll(links.next[prev := next], links.prev);
    }

    /** priority_list_insert, not blocked. */
    method InsertNode(x: Node, begin: bool, awaited: bool)
      modifies this`links, this`tasks, this`lastParentDependsOn
      ensures Cur() == Insert(old(Cur()), x, begin, awaited)
    {
      if tasks == Null {
        links := Alone(links, x);
        tasks := To(x);
        if awaited { lastParentDependsOn := To(x); }
      } else if awaited {
        if begin || lastParentDependsOn == Null {
          LinkIn(x, tasks);
          tasks := To(x);
          if lastParentDependsOn == Null { lastParentDependsOn := To(x); }
        } else {
          LinkIn(x, NextOf(links, lastParentDependsOn));
          lastParentDependsOn := To(x);
        }
      } else if begin && lastParentDependsOn == Null {
        LinkIn(x, tasks);
        tasks := To(x);
      } else if !begin && firstRunning == Null {
        LinkIn(x, tasks);
      } else if begin {
        LinkIn(x, NextOf(links, lastParentDependsOn));
      } else {
        LinkIn(x, firstRunning);
        if tasks == firstRunning { tasks := To(x); }
      }
    }

    method InsertBlockedNode(x: Node)
      modifies this`links, this`blockedTasks
      ensures Cur() == InsertBlocked(old(Cur()), x)
    {
      if blockedTasks == Null {
        links := Alone(links, x);
        blockedTasks := To(x);
      } else {
        LinkIn(x, blockedTasks);
      }
    }

    /** priority_list_remove, not blocked. */
    method RemoveNode(x: Node) returns (empty: bool)
      requires Linked(Cur(), x)
      ensures empty <==> old(tasks) == To(x) && old(links.next)[x] == x && blockedTasks == Null
      modifies this`links, this`tasks, this`lastParentDependsOn, this`firstRunning
      ensures Cur() == Remove(old(Cur()), x)
    {
      var next, prev := To(links.next[x]), To(links.prev[x]);
      if tasks == To(x) {
        if next == To(x) {
          tasks := Null;
          if firstRunning != Null { firstRunning := Null; } else { lastParentDependsOn := Null; }
          return blockedTasks == Null;
        }
        tasks := next;
        if firstRunning == To(x) {
          firstRunning := next;
        } else if lastParentDependsOn == To(x) {
          lastParentDependsOn := Null;
        }
      } else if firstRunning == To(x) {
        firstRunning := if next != tasks then next else Null;
      } else if lastParentDependsOn == To(x) {
        lastParentDependsOn := prev;
      }
      TakeOut(x);
      empty := false;
    }

    method RemoveBlockedNode(x: Node) returns (empty: bool)
      requires Linked(Cur(), x)
      ensures empty <==> old(blockedTasks) == To(x) && old(links.next)[x] == x && tasks == Null
      modifies this`links, this`blockedTasks
      ensures Cur() == RemoveBlocked(old(Cur()), x)
    {
      var next := links.next[x];
      if blockedTasks == To(x) {
        if next == x {
          blockedTasks := Null;
          return tasks == Null;
        }
        blockedTasks := To(next);
      }
      TakeOut(x);
      empty := false;
    }

    /** priority_list_upgrade_task. */
    method UpgradeNode(x: Node)
      requires Linked(Cur(), x)
      modifies this`links, this`tasks, this`lastParentDependsOn
      ensures Cur() == Upgrade(old(Cur()), x)
    {
      if tasks == To(x) {
        if lastParentDependsOn == Null { lastParentDependsOn := To(x); }
      } else if lastParentDependsOn == Null {
        if To(links.next[x]) != tasks {
          TakeOut(x);
          LinkIn(x, tasks);
        }
        tasks, lastParentDependsOn := To(x), To(x);
      } else if To(links.prev[x]) == lastParentDependsOn {
        lastParentDependsOn := To(x);
      } else if To(links.next[x]) == tasks {
        tasks := To(x);
      } else {
        TakeOut(x);
        LinkIn(x, NextOf(links, lastParentDependsOn));
        lastParentDependsOn := To(x);
      }
    }

    /** priority_list_downgrade_task. */
    method DowngradeNode(x: Node)
      requires Linked(Cur(), x)
      modifies this`links, this`tasks, this`lastParentDependsOn, this`firstRunning
      ensures Cur() == Downgrade(old(Cur()), x)
    {
      var next := links.next[x];
      if tasks == To(x) {
        if next != x { tasks := To(next); }
        if lastParentDependsOn == To(x) { lastParentDependsOn := Null; }
        if firstRunning == Null { firstRunning := To(x); }
        return;
      }
      if lastParentDependsOn == To(x) { lastParentDependsOn := To(links.prev[x]); }
      if To(next) == tasks || To(next) == firstRunning {
        firstRunning := To(x);
      } else {
        TakeOut(x);
        LinkIn(x, tasks);
        if firstRunning == Null { firstRunning := To(x); }
      }
    }

    /** Any operation on the list. */
    method Perform(op: Op) returns (empty: bool)
      requires Valid() && Legal(kinds, op)
      modifies this
      ensures Valid() && kinds == After(old(kinds), op)
      ensures op.Leave? ==> (empty <==> kinds == map[])
      ensures forall q :: old(InOrder(Cur(), q) && Allowed(q, op)) ==> InOrder(Cur(), Next(q, op))
    {
      ApplyKeeps(Cur(), kinds, op);
      forall q | InOrder(Cur(), q) && Allowed(q, op) ensures InOrder(Apply(Cur(), op), Next(q, op)) { OrderStep(Cur(), q, op); }
      if op.x in kinds { KnownIsLinked(Cur(), kinds, op.x); }
      empty := false;
      match op {
      case Enter(x, begin, awaited) => InsertNode(x, begin, awaited);
      case EnterRunning(x) => InsertRunningNode(x);
      case EnterBlocked(x) => InsertBlockedNode(x);
      case Leave(x, isBlocked) =>
        LastOneOut(Cur(), kinds, x);
        if isBlocked { empty := RemoveBlockedNode(x); } else { empty := RemoveNode(x); }
      case Await(x) => UpgradeNode(x);
      case Start(x) => DowngradeNode(x);
      case Adjust(x, begin, awaited) => empty := RemoveNode(x); InsertNode(x, begin, awaited);
      case Block(x) => empty := RemoveNode(x); InsertBlockedNode(x);
      case Unblock(x, begin, awaited) => empty := RemoveBlockedNode(x); InsertNode(x, begin, awaited);
      }
      kinds := After(kinds, op);
    }

    /** priority_list_insert_running. */
    method InsertRunningNode(x: Node)
      modifies this`links, this`tasks, this`firstRunning
      ensures Cur() == InsertRunning(old(Cur()), x)
    {
      if tasks == Null {
        links := Alone(links, x);
        tasks, firstRunning := To(x), To(x);
      } else {
        LinkIn(x, tasks);
        if firstRunning == Null { firstRunning := To(x); }
      }
    }
  }
}
