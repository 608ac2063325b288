/** The depend-clause engine of task.c: per-address chains with redundant "out" entries moved
    behind the scanned prefix, depender vectors and dependee counters.

    `State` belongs to one parent task, whose children are numbered in creation order; `Team` holds the
    states of any number of parents and the one task_count they share.  The functions are the
    specification of one step; DependEngine performs the steps in place. */
module Depend {

  type TaskId = nat
  type Addr = int

  datatype Clause = Clause(addr: Addr, isIn: bool)

  datatype Entry = Entry(task: TaskId, isIn: bool, redundantOut: bool)

  /** `live` holds the outstanding (created and unfinished) children with the clauses registered so
      far; `chains` is the contents of the hash table, head of the chain first; a task without a
      depender vector is absent from `dependers`; `children` are the queued or running children. */
  datatype State = State(
    nextId: nat,
    live: map<TaskId, seq<Clause>>,
    chains: map<Addr, seq<Entry>>,
    dependers: map<TaskId, seq<TaskId>>,
    numDependees: map<TaskId, int>,
    children: set<TaskId>,
    taskCount: int)

  const Empty := State(0, map[], map[], map[], map[], {}, 0)

  // ---------- What the depend clause means ----------

  predicate Uses(cs: seq<Clause>, a: Addr) {
    exists i :: 0 <= i < |cs| && cs[i].addr == a
  }

  predicate Writes(cs: seq<Clause>, a: Addr) {
    exists i :: 0 <= i < |cs| && cs[i].addr == a && !cs[i].isIn
  }

  /** Two sibling tasks must run in creation order: some address is used by both and written by one. */
  ghost predicate Conflict(cs: seq<Clause>, ds: seq<Clause>) {
    exists a :: Uses(cs, a) && Uses(ds, a) && (Writes(cs, a) || Writes(ds, a))
  }

  /** The compiler passes out and inout clauses before in clauses. */
  predicate OutsFirst(cs: seq<Clause>) {
    forall i, j :: 0 <= i < j < |cs| && !cs[j].isIn ==> !cs[i].isIn
  }

  // ---------- The steps ----------

  function Chain(st: State, a: Addr): seq<Entry> {
    if a in st.chains then st.chains[a] else []
  }

  /** Number of leading entries before the first redundant_out one: the part a scan visits. */
  function Scanned(ch: seq<Entry>): (k: nat)
    ensures k <= |ch|
    ensures forall i :: 0 <= i < k ==> !ch[i].redundantOut
    ensures k < |ch| ==> ch[k].redundantOut
  {
    if ch == [] || ch[0].redundantOut then 0 else 1 + Scanned(ch[1..])
  }

  /** Position of the last out entry among the first `k`, or `k` if there is none. */
  function LastOut(ch: seq<Entry>, k: nat): (j: nat)
    requires k <= |ch|
    ensures j <= |ch|
    ensures j < k ==> !ch[j].isIn && forall i :: j < i < k ==> ch[i].isIn
    ensures j >= k ==> j == k && forall i :: 0 <= i < k ==> ch[i].isIn
  {
    if k == 0 then 0
    else if !ch[k - 1].isIn then k - 1
    else var j := LastOut(ch, k - 1); if j == k - 1 then k else j
  }

  /** Append `t` to the dependers of `s` unless it is the last one already. */
  function AddEdge(st: State, s: TaskId, t: TaskId): State
    requires t in st.numDependees
  {
    if s in st.dependers && st.dependers[s] != [] && st.dependers[s][|st.dependers[s]| - 1] == t then st
    else
      st.(dependers := st.dependers[s := (if s in st.dependers then st.dependers[s] else []) + [t]],
          numDependees := st.numDependees[t := st.numDependees[t] + 1])
  }

  /** Scan `ch[i..k]`: every entry that conflicts with an (in or out) clause of `t` gets an edge. */
  function Scan(st: State, t: TaskId, isIn: bool, ch: seq<Entry>, i: nat, k: nat): (r: State)
    requires t in st.numDependees
    requires i <= k <= |ch|
    ensures t in r.numDependees
    decreases k - i
  {
    if i == k then st
    else if isIn && ch[i].isIn then Scan(st, t, isIn, ch, i + 1, k)
    else Scan(AddEdge(st, ch[i].task, t), t, isIn, ch, i + 1, k)
  }

  /** Entry `j` demoted to the end of the first `k` entries. */
  function Demote(ch: seq<Entry>, j: nat, k: nat): seq<Entry>
    requires j < k <= |ch|
  {
    ch[..j] + ch[j + 1..k] + [ch[j].(redundantOut := true)] + ch[k..]
  }

  /** The new chain: the entry of `t` in front and, for an out clause, the previous out demoted to
      the end of the scanned part. */
  function Relink(ch: seq<Entry>, t: TaskId, isIn: bool): seq<Entry> {
    var k := Scanned(ch);
    var j := LastOut(ch, k);
    [Entry(t, isIn, false)] + if !isIn && j < k then Demote(ch, j, k) else ch
  }

  /** One iteration of the clause loop of gomp_task_handle_depend. */
  function AddClause(st: State, t: TaskId, c: Clause): State
    requires t in st.numDependees && t in st.live
  {
    var ch := Chain(st, c.addr);
    var st1 := st.(live := st.live[t := st.live[t] + [c]]);
    if ch != [] && ch[0].task == t then st1
    else
      Scan(st1, t, c.isIn, ch, 0, Scanned(ch)).(chains := st.chains[c.addr := Relink(ch, t, c.isIn)])
  }

  function AddClauses(st: State, t: TaskId, cs: seq<Clause>, i: nat): State
    requires t in st.numDependees && t in st.live && i <= |cs|
    decreases |cs| - i
  {
    if i == |cs| then st
    else
      ScanFrame(st.(live := st.live[t := st.live[t] + [cs[i]]]), t, cs[i].isIn,
                Chain(st, cs[i].addr), 0, Scanned(Chain(st, cs[i].addr)));
      AddClauses(AddClause(st, t, cs[i]), t, cs, i + 1)
  }

  function Begin(st: State): State {
    st.(nextId := st.nextId + 1,
        live := st.live[st.nextId := []],
        numDependees := st.numDependees[st.nextId := 0])
  }

  function Publish(st: State, t: TaskId): State
    requires t in st.numDependees
  {
    if st.numDependees[t] != 0 then st
    else st.(children := st.children + {t}, taskCount := st.taskCount + 1)
  }

  /** GOMP_task for a deferred child: register its clauses, queue it if nothing holds it back. */
  function Create(st: State, cs: seq<Clause>): State {
    var b := Begin(st);
    AddClausesFrame(b, st.nextId, cs, 0);
    Publish(AddClauses(b, st.nextId, cs, 0), st.nextId)
  }

  function Without(ch: seq<Entry>, t: TaskId): seq<Entry> {
    if ch == [] then []
    else if ch[0].task == t then Without(ch[1..], t)
    else [ch[0]] + Without(ch[1..], t)
  }

  function DependersOf(st: State, t: TaskId): seq<TaskId> {
    if t in st.dependers then st.dependers[t] else []
  }

  /** The tasks of `v` with one dependee left. */
  function OneLeft(num: map<TaskId, int>, v: seq<TaskId>): set<TaskId> {
    set d | d in v && d in num && num[d] == 1
  }

  /** The tasks whose last dependee is `t`. */
  function Released(st: State, t: TaskId): set<TaskId> {
    OneLeft(st.numDependees, DependersOf(st, t))
  }

  /** Termination of a child: leave every chain, count down and queue dependers, leave the queues. */
  function Finish(st: State, t: TaskId): State {
    st.(live := st.live - {t},
        chains := map a | a in st.chains && Without(st.chains[a], t) != [] :: Without(st.chains[a], t),
        dependers := st.dependers - {t},
        numDependees := (map x | x in st.numDependees && x != t ::
                           if x in DependersOf(st, t) then st.numDependees[x] - 1 else st.numDependees[x]),
        children := st.children + Released(st, t) - {t},
        taskCount := st.taskCount + |Released(st, t)| - 1)
  }

  // ---------- The invariant ----------

  predicate Edge(st: State, s: TaskId, t: TaskId) {
    s in st.dependers && t in st.dependers[s]
  }

  function InEdges(st: State, t: TaskId): set<TaskId> {
    set s | s in st.dependers && t in st.dependers[s]
  }

  predicate Increasing(v: seq<TaskId>) {
    forall i, j :: 0 <= i < j < |v| ==> v[i] < v[j]
  }

  /** Vectors list later live siblings in creation order. */
  ghost predicate VectorsOk(st: State) {
    && st.dependers.Keys <= st.live.Keys
    && (forall s :: s in st.dependers ==> Increasing(st.dependers[s]))
    && (forall s, t :: Edge(st, s, t) ==> s < t && t in st.live)
  }

  /** ... and the counters count them. */
  ghost predicate EdgesOk(st: State) {
    && VectorsOk(st)
    && st.numDependees.Keys == st.live.Keys
    && (forall t :: t in st.live ==> st.numDependees[t] == |InEdges(st, t)|)
  }

  /** Every edge stands for a conflict. */
  ghost predicate EdgesSound(st: State) {
    forall s, t :: Edge(st, s, t) && s in st.live && t in st.live ==> Conflict(st.live[s], st.live[t])
  }

  /** `u` holds `t` back on behalf of `s`. */
  ghost predicate Stands(st: State, s: TaskId, u: TaskId, t: TaskId) {
    s < u < t && u in st.live && s in st.live && Edge(st, u, t) && Conflict(st.live[s], st.live[u])
  }

  /** Every conflict is enforced directly, or by a later conflicting sibling that is enforced directly. */
  ghost predicate Enforced(st: State) {
    forall s, t :: s in st.live && t in st.live && s < t && Conflict(st.live[s], st.live[t])
      ==> Edge(st, s, t) || exists u :: Stands(st, s, u, t)
  }

  ghost predicate ChainMembers(live: map<TaskId, seq<Clause>>, a: Addr, ch: seq<Entry>) {
    && (forall i :: 0 <= i < |ch| ==>
          ch[i].task in live && Uses(live[ch[i].task], a) && ch[i].isIn == !Writes(live[ch[i].task], a))
    && (forall t :: t in live && Uses(live[t], a) ==> exists i :: 0 <= i < |ch| && ch[i].task == t)
    && (forall i, j :: 0 <= i < j < |ch| ==> ch[i].task != ch[j].task)
  }

  /** `ch[j]` is a scanned out entry of a later task than the demoted entry `ch[i]`. */
  predicate Covers(ch: seq<Entry>, j: int, i: int) {
    0 <= j < i < |ch| && !ch[j].redundantOut && !ch[j].isIn && ch[i].task < ch[j].task
  }

  ghost predicate ChainShape(ch: seq<Entry>) {
    && (forall i, j :: 0 <= i < j < |ch| && ch[i].redundantOut ==> ch[j].redundantOut)
    && (forall i :: 0 <= i < |ch| && ch[i].redundantOut ==> !ch[i].isIn)
    && (forall i, j :: 0 <= i < j < |ch| && !ch[i].isIn && !ch[j].isIn ==> ch[j].redundantOut)
    && (forall i :: 0 <= i < |ch| && ch[i].redundantOut ==> exists j :: Covers(ch, j, i))
  }

  ghost predicate ChainsOk(st: State) {
    && (forall a :: a in st.chains ==> st.chains[a] != [])
    && (forall a :: ChainMembers(st.live, a, Chain(st, a)))
    && (forall a :: ChainShape(Chain(st, a)))
  }

  ghost predicate Inv(st: State) {
    && EdgesOk(st)
    && EdgesSound(st)
    && ChainsOk(st)
    && Enforced(st)
    && (forall t :: t in st.live ==> t < st.nextId)
  }

  /** The queued children are the released ones and task_count counts them. */
  ghost predicate Counted(st: State) {
    && st.children == (set t | t in st.live && t in st.numDependees && st.numDependees[t] == 0)
    && st.taskCount == |st.children|
  }

  // ---------- Frames ----------

  lemma {:induction false} ScanFrame(st: State, t: TaskId, isIn: bool, ch: seq<Entry>, i: nat, k: nat)
    requires t in st.numDependees && i <= k <= |ch|
    ensures var r := Scan(st, t, isIn, ch, i, k);
      r == st.(dependers := r.dependers, numDependees := r.numDependees) &&
      r.numDependees.Keys == st.numDependees.Keys
    decreases k - i
  {
    if i < k {
      var st1 := if isIn && ch[i].isIn then st else AddEdge(st, ch[i].task, t);
      ScanFrame(st1, t, isIn, ch, i + 1, k);
    }
  }

  lemma {:induction false} AddClausesFrame(st: State, t: TaskId, cs: seq<Clause>, i: nat)
    requires t in st.numDependees && t in st.live && i <= |cs|
    ensures var r := AddClauses(st, t, cs, i);
      && r.nextId == st.nextId && r.children == st.children && r.taskCount == st.taskCount
      && r.numDependees.Keys == st.numDependees.Keys
      && r.live == st.live[t := st.live[t] + cs[i..]]
    decreases |cs| - i
  {
    if i < |cs| {
      var ch := Chain(st, cs[i].addr);
      ScanFrame(st.(live := st.live[t := st.live[t] + [cs[i]]]), t, cs[i].isIn, ch, 0, Scanned(ch));
      AddClausesFrame(AddClause(st, t, cs[i]), t, cs, i + 1);
      assert st.live[t] + cs[i..] == st.live[t] + [cs[i]] + cs[i + 1..];
    } else {
      assert st.live[t] + cs[i..] == st.live[t];
    }
  }

  // ---------- Registering one clause ----------

  /** The vectors are increasing, so the test against the last depender detects every duplicate. */
  lemma LastDepender(st: State, s: TaskId, t: TaskId)
    requires VectorsOk(st) && s in st.dependers
    requires forall x :: x in st.live ==> x <= t
    ensures t in st.dependers[s] <==>
            st.dependers[s] != [] && st.dependers[s][|st.dependers[s]| - 1] == t
  {
    var v := st.dependers[s];
    if t in v {
      var i :| 0 <= i < |v| && v[i] == t;
      if i < |v| - 1 {
        assert v[i] < v[|v| - 1];
        assert Edge(st, s, v[|v| - 1]);
      }
    }
  }

  lemma AddEdgeEdges(st: State, s: TaskId, t: TaskId)
    requires VectorsOk(st) && t in st.numDependees && (forall x :: x in st.live ==> x <= t)
    ensures forall p, x :: Edge(AddEdge(st, s, t), p, x) <==> Edge(st, p, x) || (p == s && x == t)
  {
    var r := AddEdge(st, s, t);
    if s in st.dependers { LastDepender(st, s, t); }
    assert Edge(r, s, t);
    forall p, x | Edge(r, p, x)
      ensures Edge(st, p, x) || (p == s && x == t)
    {
      if p != s { assert r.dependers[p] == st.dependers[p]; }
    }
    forall p, x | Edge(st, p, x)
      ensures Edge(r, p, x)
    {
      if p != s { assert r.dependers[p] == st.dependers[p]; }
    }
  }

  lemma AddEdgeVectors(st: State, s: TaskId, t: TaskId)
    requires VectorsOk(st) && s in st.live && t in st.live && s < t && t in st.numDependees
    requires forall x :: x in st.live ==> x <= t
    ensures VectorsOk(AddEdge(st, s, t))
  {
    var r := AddEdge(st, s, t);
    if s in st.dependers { LastDepender(st, s, t); }
    if r != st {
      var v := DependersOf(st, s);
      assert r.dependers[s] == v + [t];
      forall i, j | 0 <= i < j < |v + [t]|
        ensures (v + [t])[i] < (v + [t])[j]
      {
        if j == |v| { assert v[i] in v && Edge(st, s, v[i]); }
      }
      AddEdgeEdges(st, s, t);
      forall p, x | Edge(r, p, x)
        ensures p < x && x in st.live
      {
        assert Edge(st, p, x) || (p == s && x == t);
      }
    }
  }

  lemma InEdgesAdd(st: State, r: State, s: TaskId, t: TaskId, x: TaskId)
    requires forall p :: Edge(r, p, x) <==> Edge(st, p, x) || (p == s && x == t)
    requires !Edge(st, s, t)
    ensures |InEdges(r, x)| == |InEdges(st, x)| + if x == t then 1 else 0
  {
    assert forall p :: p in InEdges(r, x) <==> Edge(r, p, x);
    assert forall p :: p in InEdges(st, x) <==> Edge(st, p, x);
    assert InEdges(r, x) == InEdges(st, x) + if x == t then {s} else {};
  }

  lemma AddEdgeEffect(st: State, s: TaskId, t: TaskId)
    requires EdgesOk(st) && s in st.live && t in st.live && s < t
    requires forall x :: x in st.live ==> x <= t
    ensures EdgesOk(AddEdge(st, s, t))
  {
    var r := AddEdge(st, s, t);
    AddEdgeVectors(st, s, t);
    if r != st {
      if s in st.dependers { LastDepender(st, s, t); }
      AddEdgeEdges(st, s, t);
      forall x | x in st.live
        ensures r.numDependees[x] == |InEdges(r, x)|
      {
        InEdgesAdd(st, r, s, t, x);
      }
    }
  }

  /** Some entry of `ch[i..k]` belongs to `s` and conflicts with the clause being registered. */
  predicate Hit(ch: seq<Entry>, isIn: bool, i: nat, k: nat, s: TaskId)
    requires i <= k <= |ch|
  {
    exists m :: i <= m < k && ch[m].task == s && !(isIn && ch[m].isIn)
  }

  lemma {:induction false} ScanEffect(st: State, t: TaskId, isIn: bool, ch: seq<Entry>, i: nat, k: nat)
    requires EdgesOk(st) && t in st.live && i <= k <= |ch|
    requires forall x :: x in st.live ==> x <= t
    requires forall m :: 0 <= m < |ch| ==> ch[m].task in st.live && ch[m].task != t
    ensures EdgesOk(Scan(st, t, isIn, ch, i, k))
    ensures forall p, x :: Edge(Scan(st, t, isIn, ch, i, k), p, x) <==>
                           Edge(st, p, x) || (x == t && Hit(ch, isIn, i, k, p))
    decreases k - i
  {
    if i < k {
      var skip := isIn && ch[i].isIn;
      if !skip {
        AddEdgeEffect(st, ch[i].task, t);
        AddEdgeEdges(st, ch[i].task, t);
      }
      var st1 := if skip then st else AddEdge(st, ch[i].task, t);
      ScanEffect(st1, t, isIn, ch, i + 1, k);
      forall p
        ensures Hit(ch, isIn, i, k, p) <==> (!skip && p == ch[i].task) || Hit(ch, isIn, i + 1, k, p)
      {
        if Hit(ch, isIn, i, k, p) {
          var m :| i <= m < k && ch[m].task == p && !(isIn && ch[m].isIn);
          assert m == i || i + 1 <= m;
        }
      }
    }
  }

  lemma UsesAppend(cs: seq<Clause>, c: Clause, a: Addr)
    ensures Uses(cs + [c], a) <==> Uses(cs, a) || c.addr == a
    ensures Writes(cs + [c], a) <==> Writes(cs, a) || (c.addr == a && !c.isIn)
  {
    var ds := cs + [c];
    if Uses(cs, a) {
      var i :| 0 <= i < |cs| && cs[i].addr == a;
      assert ds[i].addr == a;
    }
    if Writes(cs, a) {
      var i :| 0 <= i < |cs| && cs[i].addr == a && !cs[i].isIn;
      assert ds[i].addr == a && !ds[i].isIn;
    }
    assert ds[|cs|] == c;
  }

  lemma ConflictAppend(cs: seq<Clause>, ds: seq<Clause>, c: Clause)
    ensures Conflict(cs, ds + [c]) <==>
            Conflict(cs, ds) || (Uses(cs, c.addr) && (Writes(cs, c.addr) || !c.isIn || Writes(ds, c.addr)))
    ensures Conflict(cs, ds) ==> Conflict(cs, ds + [c])
  {
    forall a { UsesAppend(ds, c, a); }
    if Conflict(cs, ds + [c]) {
      var a :| Uses(cs, a) && Uses(ds + [c], a) && (Writes(cs, a) || Writes(ds + [c], a));
    }
    if Conflict(cs, ds) {
      var a :| Uses(cs, a) && Uses(ds, a) && (Writes(cs, a) || Writes(ds, a));
      assert Uses(ds + [c], a) && (Writes(cs, a) || Writes(ds + [c], a));
    }
  }

  /** The entries of the task being created are heads of their chains. */
  predicate AtHead(st: State, t: TaskId) {
    forall a, i :: a in st.chains && 0 < i < |st.chains[a]| ==> st.chains[a][i].task != t
  }

  /** The youngest task `t`, with the clauses registered so far. */
  ghost predicate Creating(st: State, t: TaskId) {
    && Inv(st) && t in st.live && AtHead(st, t)
    && (forall x :: x in st.live ==> x <= t)
  }

  lemma RelinkInShape(ch: seq<Entry>, t: TaskId, isIn: bool)
    requires ChainShape(ch)
    requires isIn || LastOut(ch, Scanned(ch)) == Scanned(ch)
    ensures ChainShape(Relink(ch, t, isIn))
  {
    var r := Relink(ch, t, isIn);
    assert forall i :: 1 <= i < |r| ==> r[i] == ch[i - 1];
    forall i | 0 <= i < |r| && r[i].redundantOut
      ensures exists m :: Covers(r, m, i)
    {
      var m :| Covers(ch, m, i - 1);
      assert Covers(r, m + 1, i);
    }
    if !isIn { NoOut(ch); }
  }

  /** Without a scanned out entry there is none at all. */
  lemma NoOut(ch: seq<Entry>)
    requires ChainShape(ch) && LastOut(ch, Scanned(ch)) == Scanned(ch)
    ensures forall i :: 0 <= i < |ch| ==> ch[i].isIn
  {
  }

  lemma DemoteAt(ch: seq<Entry>, j: nat, k: nat, i: nat)
    requires j < k <= |ch| && i < |ch|
    ensures |Demote(ch, j, k)| == |ch|
    ensures Demote(ch, j, k)[i] == if i < j then ch[i] else if i < k - 1 then ch[i + 1]
                                   else if i == k - 1 then ch[j].(redundantOut := true) else ch[i]
  {
    var front := ch[..j] + ch[j + 1..k];
    assert i < k - 1 ==> front[i] == if i < j then ch[i] else ch[i + 1];
  }

  /** The demoted chain, position by position. */
  lemma RelinkAt(ch: seq<Entry>, t: TaskId, i: nat)
    requires LastOut(ch, Scanned(ch)) < Scanned(ch) && i <= |ch|
    ensures var r, k, j := Relink(ch, t, false), Scanned(ch), LastOut(ch, Scanned(ch));
      |r| == |ch| + 1 &&
      r[i] == if i == 0 then Entry(t, false, false) else if i <= j then ch[i - 1] else if i < k then ch[i]
              else if i == k then ch[j].(redundantOut := true) else ch[i - 1]
  {
    DemoteAt(ch, LastOut(ch, Scanned(ch)), Scanned(ch), if i == 0 then 0 else i - 1);
  }

  /** One scanned out entry, in front, and only demoted outs of earlier tasks from `k` on. */
  lemma HeadedShape(r: seq<Entry>, k: nat)
    requires 1 <= k <= |r| && !r[0].isIn
    requires forall i :: 0 <= i < |r| ==> (r[i].redundantOut <==> i >= k)
    requires forall i :: k <= i < |r| ==> !r[i].isIn
    requires forall i :: 1 <= i < k ==> r[i].isIn
    requires forall i :: 1 <= i < |r| ==> r[i].task < r[0].task
    ensures ChainShape(r)
  {
    forall i | 0 <= i < |r| && r[i].redundantOut
      ensures exists m :: Covers(r, m, i)
    {
      assert Covers(r, 0, i);
    }
  }

  lemma RelinkOutShape(ch: seq<Entry>, t: TaskId)
    requires ChainShape(ch) && LastOut(ch, Scanned(ch)) < Scanned(ch)
    requires forall i :: 0 <= i < |ch| ==> ch[i].task < t
    ensures ChainShape(Relink(ch, t, false))
  {
    var k, j := Scanned(ch), LastOut(ch, Scanned(ch));
    var r := Relink(ch, t, false);
    RelinkAt(ch, t, 0);
    forall i | 0 <= i < k && i != j
      ensures ch[i].isIn
    {
    }
    forall i | 0 <= i < |r|
      ensures (r[i].redundantOut <==> i >= k) && (i >= k ==> !r[i].isIn) && (1 <= i < k ==> r[i].isIn)
      ensures i >= 1 ==> r[i].task < t
    {
      RelinkAt(ch, t, i);
      if i > k {
        assert r[i] == ch[i - 1];
        if i - 1 > k { assert ch[k].redundantOut ==> ch[i - 1].redundantOut; }
      }
    }
    HeadedShape(r, k);
  }

  /** Which old entry stands at position `i` of the relinked chain, and back. */
  function Source(ch: seq<Entry>, isIn: bool, i: int): int {
    var k, j := Scanned(ch), LastOut(ch, Scanned(ch));
    if isIn || j >= k || i <= j || i > k then i - 1 else if i < k then i else j
  }

  function Target(ch: seq<Entry>, isIn: bool, m: int): int {
    var k, j := Scanned(ch), LastOut(ch, Scanned(ch));
    if isIn || j >= k || m < j || m >= k then m + 1 else if m == j then k else m
  }

  lemma RelinkSource(ch: seq<Entry>, t: TaskId, isIn: bool, i: int)
    requires 1 <= i <= |ch|
    ensures |Relink(ch, t, isIn)| == |ch| + 1
    ensures 0 <= Source(ch, isIn, i) < |ch|
    ensures Target(ch, isIn, Source(ch, isIn, i)) == i
    ensures Relink(ch, t, isIn)[i].task == ch[Source(ch, isIn, i)].task
    ensures Relink(ch, t, isIn)[i].isIn == ch[Source(ch, isIn, i)].isIn
  {
    if !isIn && LastOut(ch, Scanned(ch)) < Scanned(ch) {
      RelinkAt(ch, t, i);
    }
  }

  lemma RelinkTarget(ch: seq<Entry>, t: TaskId, isIn: bool, m: int)
    requires 0 <= m < |ch|
    ensures 1 <= Target(ch, isIn, m) <= |ch| && Source(ch, isIn, Target(ch, isIn, m)) == m
  {
  }

  lemma RelinkLength(ch: seq<Entry>, t: TaskId, isIn: bool)
    ensures |Relink(ch, t, isIn)| == |ch| + 1 && Relink(ch, t, isIn)[0] == Entry(t, isIn, false)
  {
  }

  /** The live clauses once `c` is registered for `t`. */
  function Grow(live: map<TaskId, seq<Clause>>, t: TaskId, c: Clause): map<TaskId, seq<Clause>>
    requires t in live
  {
    live[t := live[t] + [c]]
  }

  lemma GrowUses(live: map<TaskId, seq<Clause>>, t: TaskId, c: Clause, x: TaskId, a: Addr)
    requires t in live && x in live
    ensures Uses(Grow(live, t, c)[x], a) <==> Uses(live[x], a) || (x == t && c.addr == a)
    ensures Writes(Grow(live, t, c)[x], a) <==> Writes(live[x], a) || (x == t && c.addr == a && !c.isIn)
  {
    UsesAppend(live[t], c, a);
  }

  lemma RelinkMembers(live: map<TaskId, seq<Clause>>, t: TaskId, c: Clause, ch: seq<Entry>)
    requires t in live && ChainMembers(live, c.addr, ch) && !Uses(live[t], c.addr)
    ensures ChainMembers(Grow(live, t, c), c.addr, Relink(ch, t, c.isIn))
  {
    var a, r, live' := c.addr, Relink(ch, t, c.isIn), Grow(live, t, c);
    RelinkLength(ch, t, c.isIn);
    GrowUses(live, t, c, t, a);
    forall i | 0 <= i < |r|
      ensures r[i].task in live' && Uses(live'[r[i].task], a) && r[i].isIn == !Writes(live'[r[i].task], a)
      ensures i > 0 ==> r[i].task != t
    {
      if i > 0 {
        RelinkSource(ch, t, c.isIn, i);
        GrowUses(live, t, c, r[i].task, a);
      }
    }
    forall x | x in live' && Uses(live'[x], a)
      ensures exists i :: 0 <= i < |r| && r[i].task == x
    {
      if x == t {
        assert r[0].task == x;
      } else {
        var m :| 0 <= m < |ch| && ch[m].task == x;
        RelinkTarget(ch, t, c.isIn, m);
        RelinkSource(ch, t, c.isIn, Target(ch, c.isIn, m));
        assert r[Target(ch, c.isIn, m)].task == x;
      }
    }
    forall i, j | 0 <= i < j < |r|
      ensures r[i].task != r[j].task
    {
      if i > 0 {
        RelinkSource(ch, t, c.isIn, i);
        RelinkSource(ch, t, c.isIn, j);
      }
    }
  }

  /** A chain whose membership the clause does not change. */
  lemma GrowMembers(live: map<TaskId, seq<Clause>>, t: TaskId, c: Clause, a: Addr, ch: seq<Entry>)
    requires t in live && ChainMembers(live, a, ch)
    requires a == c.addr ==> Uses(live[t], a) && (c.isIn || Writes(live[t], a))
    ensures ChainMembers(Grow(live, t, c), a, ch)
  {
    var live' := Grow(live, t, c);
    forall x | x in live
      ensures Uses(live'[x], a) == Uses(live[x], a) && Writes(live'[x], a) == Writes(live[x], a)
    {
      GrowUses(live, t, c, x, a);
    }
  }

  lemma OutsFirstWrites(cs: seq<Clause>, c: Clause)
    requires OutsFirst(cs + [c]) && Uses(cs, c.addr) && !c.isIn
    ensures Writes(cs, c.addr)
  {
    var i :| 0 <= i < |cs| && cs[i].addr == c.addr;
    assert (cs + [c])[i] == cs[i] && (cs + [c])[|cs|] == c;
  }

  /** The head of the chain tells whether `t` has registered the address before. */
  lemma HeadTest(st: State, t: TaskId, a: Addr)
    requires Creating(st, t)
    ensures Uses(st.live[t], a) <==> Chain(st, a) != [] && Chain(st, a)[0].task == t
    ensures !Uses(st.live[t], a) ==> forall i :: 0 <= i < |Chain(st, a)| ==> Chain(st, a)[i].task < t
  {
    var ch := Chain(st, a);
    assert ChainMembers(st.live, a, ch);
    if Uses(st.live[t], a) {
      var i :| 0 <= i < |ch| && ch[i].task == t;
      assert a in st.chains;
    }
  }

  lemma AddClauseChain(st: State, t: TaskId, c: Clause)
    requires t in st.numDependees && t in st.live
    ensures var r, ch := AddClause(st, t, c), Chain(st, c.addr);
      r.live == Grow(st.live, t, c) &&
      r.chains == if ch != [] && ch[0].task == t then st.chains else st.chains[c.addr := Relink(ch, t, c.isIn)]
  {
    var ch := Chain(st, c.addr);
    ScanFrame(st.(live := Grow(st.live, t, c)), t, c.isIn, ch, 0, Scanned(ch));
  }

  lemma AddClauseChainAt(st: State, t: TaskId, c: Clause, a: Addr)
    requires Creating(st, t) && OutsFirst(st.live[t] + [c])
    ensures ChainMembers(AddClause(st, t, c).live, a, Chain(AddClause(st, t, c), a))
    ensures ChainShape(Chain(AddClause(st, t, c), a))
  {
    AddClauseChain(st, t, c);
    HeadTest(st, t, c.addr);
    assert ChainMembers(st.live, a, Chain(st, a)) && ChainShape(Chain(st, a));
    if a == c.addr && !Uses(st.live[t], a) {
      RelinkMembers(st.live, t, c, Chain(st, a));
      AddClauseShape(Chain(st, a), t, c.isIn);
    } else {
      if a == c.addr && !c.isIn { OutsFirstWrites(st.live[t], c); }
      GrowMembers(st.live, t, c, a, Chain(st, a));
    }
  }

  lemma AddClauseHeads(st: State, t: TaskId, c: Clause)
    requires Creating(st, t)
    ensures AtHead(AddClause(st, t, c), t)
    ensures forall a :: a in AddClause(st, t, c).chains ==> AddClause(st, t, c).chains[a] != []
  {
    var r, ch := AddClause(st, t, c), Chain(st, c.addr);
    AddClauseChain(st, t, c);
    HeadTest(st, t, c.addr);
    RelinkLength(ch, t, c.isIn);
    forall a, i | a in r.chains && 0 < i < |r.chains[a]|
      ensures r.chains[a][i].task != t
    {
      if a == c.addr && !Uses(st.live[t], a) { RelinkSource(ch, t, c.isIn, i); }
    }
  }

  lemma AddClauseChains(st: State, t: TaskId, c: Clause)
    requires Creating(st, t) && OutsFirst(st.live[t] + [c])
    ensures ChainsOk(AddClause(st, t, c))
  {
    AddClauseHeads(st, t, c);
    forall a
      ensures ChainMembers(AddClause(st, t, c).live, a, Chain(AddClause(st, t, c), a))
      ensures ChainShape(Chain(AddClause(st, t, c), a))
    {
      AddClauseChainAt(st, t, c, a);
    }
  }

  lemma AddClauseShape(ch: seq<Entry>, t: TaskId, isIn: bool)
    requires ChainShape(ch) && forall i :: 0 <= i < |ch| ==> ch[i].task < t
    ensures ChainShape(Relink(ch, t, isIn))
  {
    if !isIn && LastOut(ch, Scanned(ch)) < Scanned(ch) {
      RelinkOutShape(ch, t);
    } else {
      RelinkInShape(ch, t, isIn);
    }
  }

  /** `s` gets an edge to the task being created. */
  predicate NewEdge(st: State, t: TaskId, c: Clause, s: TaskId) {
    var ch := Chain(st, c.addr);
    !(ch != [] && ch[0].task == t) && Hit(ch, c.isIn, 0, Scanned(ch), s)
  }

  lemma AddClauseEdges(st: State, t: TaskId, c: Clause)
    requires Creating(st, t)
    ensures EdgesOk(AddClause(st, t, c))
    ensures AddClause(st, t, c).live == Grow(st.live, t, c)
    ensures AddClause(st, t, c).nextId == st.nextId
    ensures forall p, x :: Edge(AddClause(st, t, c), p, x) <==>
                           Edge(st, p, x) || (x == t && NewEdge(st, t, c, p))
  {
    var st1 := st.(live := Grow(st.live, t, c));
    var ch := Chain(st, c.addr);
    assert forall p, x :: Edge(st1, p, x) <==> Edge(st, p, x);
    assert EdgesOk(st1) by {
      forall x | x in st1.live
        ensures st1.numDependees[x] == |InEdges(st1, x)|
      {
        assert InEdges(st1, x) == InEdges(st, x);
      }
    }
    HeadTest(st, t, c.addr);
    if !(ch != [] && ch[0].task == t) {
      assert ChainMembers(st.live, c.addr, ch);
      ScanEffect(st1, t, c.isIn, ch, 0, Scanned(ch));
      ScanFrame(st1, t, c.isIn, ch, 0, Scanned(ch));
      var sc := Scan(st1, t, c.isIn, ch, 0, Scanned(ch));
      ChainsFrame(sc, AddClause(st, t, c));
    }
  }

  lemma ChainsFrame(st: State, r: State)
    requires r == st.(chains := r.chains)
    ensures EdgesOk(st) ==> EdgesOk(r)
    ensures forall p, x :: Edge(r, p, x) <==> Edge(st, p, x)
  {
    assert forall p, x :: Edge(r, p, x) <==> Edge(st, p, x);
    forall x ensures InEdges(r, x) == InEdges(st, x) { }
  }

  lemma AddClauseSound(st: State, t: TaskId, c: Clause)
    requires Creating(st, t)
    ensures EdgesSound(AddClause(st, t, c))
  {
    var r := AddClause(st, t, c);
    AddClauseEdges(st, t, c);
    forall s: TaskId, x: TaskId | Edge(r, s, x) && s in r.live && x in r.live
      ensures Conflict(r.live[s], r.live[x])
    {
      assert s < x <= t;
      if x == t {
        ConflictAppend(st.live[s], st.live[t], c);
        if !Edge(st, s, x) {
          var ch := Chain(st, c.addr);
          assert ChainMembers(st.live, c.addr, ch);
          var m :| 0 <= m < Scanned(ch) && ch[m].task == s && !(c.isIn && ch[m].isIn);
        }
      }
    }
  }

  lemma RepresentedBy(live: map<TaskId, seq<Clause>>, a: Addr, ch: seq<Entry>, i: nat) returns (m: nat)
    requires ChainMembers(live, a, ch) && ChainShape(ch) && Scanned(ch) <= i < |ch|
    ensures m < Scanned(ch) && !ch[m].isIn && ch[i].task < ch[m].task && ch[m].task in live
    ensures ch[i].task in live && Conflict(live[ch[i].task], live[ch[m].task])
  {
    assert ch[i].redundantOut;
    var j :| Covers(ch, j, i);
    m := j;
    assert Uses(live[ch[i].task], a) && Uses(live[ch[m].task], a) && Writes(live[ch[m].task], a);
  }

  /** A task whose entry the scan does not reach is represented by the scanned out entry. */
  lemma Represented(st: State, t: TaskId, c: Clause, s: TaskId)
    requires Creating(st, t) && !Uses(st.live[t], c.addr)
    requires s in st.live && s < t && Uses(st.live[s], c.addr) && (Writes(st.live[s], c.addr) || !c.isIn)
    ensures NewEdge(st, t, c, s) ||
            exists u :: s < u < t && u in st.live && NewEdge(st, t, c, u) && Conflict(st.live[s], st.live[u])
  {
    var ch := Chain(st, c.addr);
    HeadTest(st, t, c.addr);
    assert ChainMembers(st.live, c.addr, ch);
    var i :| 0 <= i < |ch| && ch[i].task == s;
    if i < Scanned(ch) {
      assert Hit(ch, c.isIn, 0, Scanned(ch), s);
    } else {
      var m := RepresentedBy(st.live, c.addr, ch, i);
      assert Hit(ch, c.isIn, 0, Scanned(ch), ch[m].task);
      assert NewEdge(st, t, c, ch[m].task);
    }
  }

  lemma AddClauseEnforcedNew(st: State, t: TaskId, c: Clause, s: TaskId)
    requires Creating(st, t) && OutsFirst(st.live[t] + [c])
    requires s in st.live && s < t && Conflict(st.live[s], st.live[t] + [c]) && !Conflict(st.live[s], st.live[t])
    ensures NewEdge(st, t, c, s) ||
            exists u :: s < u < t && u in st.live && NewEdge(st, t, c, u) && Conflict(st.live[s], st.live[u])
  {
    ConflictAppend(st.live[s], st.live[t], c);
    if Uses(st.live[t], c.addr) {
      if !c.isIn { OutsFirstWrites(st.live[t], c); }
      assert false;
    } else {
      Represented(st, t, c, s);
    }
  }

  lemma AddClauseEnforcedOld(st: State, t: TaskId, c: Clause, s: TaskId, x: TaskId)
    requires Creating(st, t) && s in st.live && x in st.live && s < x && Conflict(st.live[s], st.live[x])
    ensures Edge(AddClause(st, t, c), s, x) || exists u :: Stands(AddClause(st, t, c), s, u, x)
  {
    AddClauseEdges(st, t, c);
    if !Edge(st, s, x) {
      var u :| Stands(st, s, u, x);
      assert Stands(AddClause(st, t, c), s, u, x);
    }
  }

  /** A hit of the scan is an edge afterwards. */
  lemma NewEdgeIsEdge(st: State, t: TaskId, c: Clause, p: TaskId)
    requires Creating(st, t) && NewEdge(st, t, c, p)
    ensures Edge(AddClause(st, t, c), p, t) && AddClause(st, t, c).live == Grow(st.live, t, c)
  {
    AddClauseEdges(st, t, c);
  }

  lemma NewEdgeStands(st: State, t: TaskId, c: Clause, s: TaskId, u: TaskId)
    requires Creating(st, t) && s < u < t && s in st.live && u in st.live && NewEdge(st, t, c, u) && Conflict(st.live[s], st.live[u])
    ensures Stands(AddClause(st, t, c), s, u, t)
  {
    NewEdgeIsEdge(st, t, c, u);
  }

  lemma AddClauseEnforcedFresh(st: State, t: TaskId, c: Clause, s: TaskId)
    requires Creating(st, t) && OutsFirst(st.live[t] + [c])
    requires s in st.live && s < t && Conflict(st.live[s], st.live[t] + [c]) && !Conflict(st.live[s], st.live[t])
    ensures Edge(AddClause(st, t, c), s, t) || exists u :: Stands(AddClause(st, t, c), s, u, t)
  {
    AddClauseEnforcedNew(st, t, c, s);
    if NewEdge(st, t, c, s) {
      NewEdgeIsEdge(st, t, c, s);
    } else {
      var u :| s < u < t && u in st.live && NewEdge(st, t, c, u) && Conflict(st.live[s], st.live[u]);
      NewEdgeStands(st, t, c, s, u);
    }
  }

  lemma AddClauseEnforcedAt(st: State, t: TaskId, c: Clause, s: TaskId, x: TaskId)
    requires Creating(st, t) && OutsFirst(st.live[t] + [c])
    requires s in st.live && x in st.live && s < x && Conflict(st.live[s], Grow(st.live, t, c)[x])
    ensures Edge(AddClause(st, t, c), s, x) || exists u :: Stands(AddClause(st, t, c), s, u, x)
  {
    if x != t || Conflict(st.live[s], st.live[t]) {
      AddClauseEnforcedOld(st, t, c, s, x);
    } else {
      AddClauseEnforcedFresh(st, t, c, s);
    }
  }

  lemma AddClauseEnforced(st: State, t: TaskId, c: Clause)
    requires Creating(st, t) && OutsFirst(st.live[t] + [c])
    ensures Enforced(AddClause(st, t, c))
  {
    var r := AddClause(st, t, c);
    AddClauseChain(st, t, c);
    forall s, x | s in r.live && x in r.live && s < x && Conflict(r.live[s], r.live[x])
      ensures Edge(r, s, x) || exists u :: Stands(r, s, u, x)
    {
      AddClauseEnforcedAt(st, t, c, s, x);
    }
  }

  lemma AddClauseKeeps(st: State, t: TaskId, c: Clause)
    requires Creating(st, t) && OutsFirst(st.live[t] + [c])
    ensures Creating(AddClause(st, t, c), t)
  {
    AddClauseChains(st, t, c);
    AddClauseHeads(st, t, c);
    AddClauseEdges(st, t, c);
    AddClauseSound(st, t, c);
    AddClauseEnforced(st, t, c);
  }

  lemma {:induction false} AddClausesKeep(st: State, t: TaskId, cs: seq<Clause>, i: nat)
    requires Creating(st, t) && i <= |cs| && st.live[t] == cs[..i] && OutsFirst(cs)
    ensures Creating(AddClauses(st, t, cs, i), t)
    decreases |cs| - i
  {
    if i < |cs| {
      assert st.live[t] + [cs[i]] == cs[..i + 1];
      AddClauseKeeps(st, t, cs[i]);
      AddClauseEdges(st, t, cs[i]);
      AddClausesKeep(AddClause(st, t, cs[i]), t, cs, i + 1);
    }
  }

  // ---------- Main results for one state ----------

  lemma HeldBack(st: State, s: TaskId, t: TaskId)
    requires Inv(st) && s in st.live && t in st.live && s < t && Conflict(st.live[s], st.live[t])
    ensures st.numDependees[t] != 0
  {
    if Edge(st, s, t) {
      assert s in InEdges(st, t);
    } else {
      var u :| Stands(st, s, u, t);
      assert u in InEdges(st, t);
    }
  }

  /** Although a scan stops at the first redundant_out entry, a task is held back exactly when an
      earlier unfinished sibling conflicts with it. */
  lemma Exact(st: State, t: TaskId)
    requires Inv(st) && t in st.live
    ensures st.numDependees[t] == 0 <==>
            forall s :: s in st.live && s < t ==> !Conflict(st.live[s], st.live[t])
  {
    forall s | s in st.live && s < t && Conflict(st.live[s], st.live[t])
      ensures st.numDependees[t] != 0
    {
      HeldBack(st, s, t);
    }
    if st.numDependees[t] != 0 {
      var s :| s in InEdges(st, t);
      assert Edge(st, s, t);
    }
  }

  /** A path of depender edges. */
  predicate Path(st: State, p: seq<TaskId>) {
    forall i :: 0 <= i < |p| - 1 ==> Edge(st, p[i], p[i + 1])
  }

  /** Every outstanding task is reached along depender edges from a released one. */
  lemma {:induction false} Progress(st: State, t: TaskId) returns (p: seq<TaskId>)
    requires Inv(st) && t in st.live
    ensures p != [] && p[|p| - 1] == t && Path(st, p)
    ensures p[0] in st.live && st.numDependees[p[0]] == 0
    decreases t
  {
    if st.numDependees[t] == 0 {
      p := [t];
    } else {
      var s :| s in InEdges(st, t);
      assert Edge(st, s, t);
      var q := Progress(st, s);
      p := q + [t];
    }
  }

  /** An empty queue (a zero task_count) means that no child is outstanding. */
  lemma NothingOutstanding(st: State)
    requires Inv(st) && Counted(st)
    ensures st.taskCount == 0 <==> st.live == map[]
    ensures st.children == {} <==> st.live == map[]
  {
    if st.live != map[] {
      var t :| t in st.live;
      var p := Progress(st, t);
      assert p[0] in st.children;
    }
  }

  // ---------- Creation ----------

  lemma BeginEdges(st: State)
    requires EdgesOk(st) && forall x :: x in st.live ==> x < st.nextId
    ensures EdgesOk(Begin(st))
  {
    var b, t := Begin(st), st.nextId;
    assert forall p, x :: Edge(b, p, x) <==> Edge(st, p, x);
    forall x | x in b.live
      ensures b.numDependees[x] == |InEdges(b, x)|
    {
      assert InEdges(b, x) == InEdges(st, x);
      if x == t {
        forall p ensures p !in InEdges(b, t) { assert Edge(b, p, t) ==> t in st.live; }
      }
    }
  }

  lemma BeginChains(st: State)
    requires ChainsOk(st) && forall x :: x in st.live ==> x < st.nextId
    ensures ChainsOk(Begin(st)) && AtHead(Begin(st), st.nextId)
  {
    var b, t := Begin(st), st.nextId;
    forall a ensures ChainMembers(b.live, a, Chain(b, a)) && ChainShape(Chain(b, a)) {
      assert ChainMembers(st.live, a, Chain(st, a)) && ChainShape(Chain(st, a));
      assert !Uses(b.live[t], a);
    }
    forall a, i | a in b.chains && 0 < i < |b.chains[a]|
      ensures b.chains[a][i].task != t
    {
      assert ChainMembers(st.live, a, Chain(st, a));
    }
  }

  lemma BeginCreating(st: State)
    requires Inv(st)
    ensures Creating(Begin(st), st.nextId)
  {
    BeginEdges(st);
    BeginChains(st);
    BeginEnforced(st);
  }

  lemma BeginEnforced(st: State)
    requires Inv(st)
    ensures Enforced(Begin(st)) && EdgesSound(Begin(st))
  {
    var b, t := Begin(st), st.nextId;
    forall s, x | s in b.live && x in b.live && s < x && Conflict(b.live[s], b.live[x])
      ensures Edge(b, s, x) || exists u :: Stands(b, s, u, x)
    {
      if !Edge(st, s, x) {
        var u :| Stands(st, s, u, x);
        assert Stands(b, s, u, x);
      }
    }
    forall s: TaskId, x: TaskId | Edge(b, s, x) && s in b.live && x in b.live
      ensures Conflict(b.live[s], b.live[x])
    {
      assert Edge(st, s, x);
    }
  }

  lemma CreateInv(st: State, cs: seq<Clause>)
    requires Inv(st) && OutsFirst(cs)
    ensures Inv(Create(st, cs))
  {
    var b, t := Begin(st), st.nextId;
    BeginCreating(st);
    AddClausesKeep(b, t, cs, 0);
    PublishKeeps(AddClauses(b, t, cs, 0), t);
  }

  lemma CreateLive(st: State, cs: seq<Clause>)
    ensures Create(st, cs).live == st.live[st.nextId := cs]
  {
    AddClausesFrame(Begin(st), st.nextId, cs, 0);
    assert [] + cs[0..] == cs;
  }

  lemma CreateKeeps(st: State, cs: seq<Clause>)
    requires Inv(st) && Counted(st) && OutsFirst(cs)
    ensures Inv(Create(st, cs)) && Counted(Create(st, cs))
    ensures Create(st, cs).live == st.live[st.nextId := cs] && st.nextId !in st.live
  {
    CreateLive(st, cs);
    CreateInv(st, cs);
    CreateCounted(st, cs);
  }

  lemma PublishKeeps(d: State, t: TaskId)
    requires Inv(d) && t in d.numDependees
    ensures Inv(Publish(d, t))
  {
    var r := Publish(d, t);
    assert forall p, x :: Edge(r, p, x) <==> Edge(d, p, x);
    forall x ensures InEdges(r, x) == InEdges(d, x) { }
    forall a ensures Chain(r, a) == Chain(d, a) { }
    forall s, x | s in r.live && x in r.live && s < x && Conflict(r.live[s], r.live[x])
      ensures Edge(r, s, x) || exists u :: Stands(r, s, u, x)
    {
      if !Edge(d, s, x) {
        var u :| Stands(d, s, u, x);
        assert Stands(r, s, u, x);
      }
    }
  }

  /** Registering the clauses of `t` changes no counter but that of `t`. */
  lemma {:induction false} AddClausesCounts(st: State, t: TaskId, cs: seq<Clause>, i: nat)
    requires t in st.numDependees && t in st.live && i <= |cs|
    ensures forall x :: x in st.numDependees && x != t ==>
              x in AddClauses(st, t, cs, i).numDependees &&
              AddClauses(st, t, cs, i).numDependees[x] == st.numDependees[x]
    decreases |cs| - i
  {
    if i < |cs| {
      var ch := Chain(st, cs[i].addr);
      ScanCounts(st.(live := Grow(st.live, t, cs[i])), t, cs[i].isIn, ch, 0, Scanned(ch));
      ScanFrame(st.(live := Grow(st.live, t, cs[i])), t, cs[i].isIn, ch, 0, Scanned(ch));
      AddClausesCounts(AddClause(st, t, cs[i]), t, cs, i + 1);
    }
  }

  lemma {:induction false} ScanCounts(st: State, t: TaskId, isIn: bool, ch: seq<Entry>, i: nat, k: nat)
    requires t in st.numDependees && i <= k <= |ch|
    ensures forall x :: x in st.numDependees && x != t ==>
              x in Scan(st, t, isIn, ch, i, k).numDependees &&
              Scan(st, t, isIn, ch, i, k).numDependees[x] == st.numDependees[x]
    decreases k - i
  {
    if i < k {
      ScanCounts(if isIn && ch[i].isIn then st else AddEdge(st, ch[i].task, t), t, isIn, ch, i + 1, k);
    }
  }

  lemma PublishCounted(st: State, d: State, t: TaskId)
    requires Counted(st) && t !in st.live && st.numDependees.Keys == st.live.Keys
    requires d.children == st.children && d.taskCount == st.taskCount
    requires d.live.Keys == d.numDependees.Keys == st.live.Keys + {t}
    requires forall x :: x in st.live ==> d.numDependees[x] == st.numDependees[x]
    ensures Counted(Publish(d, t))
  {
    var r := Publish(d, t);
    assert forall x :: x in st.children <==> x in st.live && st.numDependees[x] == 0;
    var ready := set x | x in r.live && x in r.numDependees && r.numDependees[x] == 0;
    forall x: TaskId ensures x in r.children <==> x in ready {
      assert x != t ==> (x in r.children <==> x in st.children);
    }
    assert r.children == ready;
  }

  lemma CreateCounted(st: State, cs: seq<Clause>)
    requires Inv(st) && Counted(st)
    ensures Counted(Create(st, cs))
  {
    var b, t := Begin(st), st.nextId;
    var d := AddClauses(b, t, cs, 0);
    AddClausesFrame(b, t, cs, 0);
    AddClausesCounts(b, t, cs, 0);
    forall x | x in st.live ensures d.numDependees[x] == st.numDependees[x] { assert x != t; }
    PublishCounted(st, d, t);
  }

  // ---------- Termination of a child ----------

  lemma {:induction false} WithoutAbsent(ch: seq<Entry>, t: TaskId)
    requires forall i :: 0 <= i < |ch| ==> ch[i].task != t
    ensures Without(ch, t) == ch
  {
    if ch != [] {
      WithoutAbsent(ch[1..], t);
    }
  }

  lemma {:induction false} WithoutAt(ch: seq<Entry>, t: TaskId, p: nat)
    requires p < |ch| && ch[p].task == t
    requires forall i :: 0 <= i < |ch| && i != p ==> ch[i].task != t
    ensures Without(ch, t) == ch[..p] + ch[p + 1..]
  {
    if p == 0 {
      WithoutAbsent(ch[1..], t);
    } else {
      assert ch[1..][..p - 1] == ch[1..p] && ch[1..][p..] == ch[p + 1..];
      WithoutAt(ch[1..], t, p - 1);
      assert ch[..p] == [ch[0]] + ch[1..p];
    }
  }

  lemma DropShape(ch: seq<Entry>, p: nat)
    requires p < |ch| && ChainShape(ch)
    requires forall i :: p < i < |ch| && ch[i].redundantOut ==> !Covers(ch, p, i)
    ensures ChainShape(ch[..p] + ch[p + 1..])
  {
    var r := ch[..p] + ch[p + 1..];
    assert forall i :: 0 <= i < |r| ==> r[i] == ch[if i < p then i else i + 1];
    forall i | 0 <= i < |r| && r[i].redundantOut
      ensures exists m :: Covers(r, m, i)
    {
      var i' := if i < p then i else i + 1;
      var m :| Covers(ch, m, i');
      assert Covers(r, if m < p then m else m - 1, i);
    }
  }

  lemma DropMembers(live: map<TaskId, seq<Clause>>, a: Addr, ch: seq<Entry>, p: nat)
    requires p < |ch| && ChainMembers(live, a, ch)
    ensures ChainMembers(live - {ch[p].task}, a, ch[..p] + ch[p + 1..])
  {
    var r := ch[..p] + ch[p + 1..];
    assert forall i :: 0 <= i < |r| ==> r[i] == ch[if i < p then i else i + 1];
    forall t | t in live && t != ch[p].task && Uses(live[t], a)
      ensures exists i :: 0 <= i < |r| && r[i].task == t
    {
      var m :| 0 <= m < |ch| && ch[m].task == t;
      assert r[if m < p then m else m - 1].task == t;
    }
  }

  /** A released task covers nothing: its own demoted predecessors would still hold it back. */
  lemma ReleasedCoversNothing(st: State, t: TaskId, a: Addr, p: nat, i: nat)
    requires Inv(st) && t in st.live && st.numDependees[t] == 0
    requires p < i < |Chain(st, a)| && Chain(st, a)[p].task == t
    ensures !Covers(Chain(st, a), p, i)
  {
    var ch := Chain(st, a);
    assert ChainMembers(st.live, a, ch);
    if Covers(ch, p, i) {
      assert Uses(st.live[ch[i].task], a) && Uses(st.live[t], a) && Writes(st.live[t], a);
      HeldBack(st, ch[i].task, t);
    }
  }

  lemma FinishChainWith(st: State, t: TaskId, a: Addr, p: nat)
    requires Inv(st) && t in st.live && st.numDependees[t] == 0
    requires p < |Chain(st, a)| && Chain(st, a)[p].task == t
    ensures ChainMembers(st.live - {t}, a, Without(Chain(st, a), t))
    ensures ChainShape(Without(Chain(st, a), t))
  {
    forall i | p < i < |Chain(st, a)| && Chain(st, a)[i].redundantOut
      ensures !Covers(Chain(st, a), p, i)
    {
      ReleasedCoversNothing(st, t, a, p, i);
    }
    DropEntry(st.live, a, Chain(st, a), p);
  }

  lemma FinishChainAt(st: State, t: TaskId, a: Addr)
    requires Inv(st) && t in st.live && st.numDependees[t] == 0
    ensures ChainMembers(st.live - {t}, a, Without(Chain(st, a), t))
    ensures ChainShape(Without(Chain(st, a), t))
  {
    var ch := Chain(st, a);
    if p :| 0 <= p < |ch| && ch[p].task == t {
      FinishChainWith(st, t, a, p);
    } else {
      WithoutAbsent(ch, t);
      assert ChainShape(ch);
      AbsentMembers(st.live, a, ch, t);
    }
  }

  lemma AbsentMembers(live: map<TaskId, seq<Clause>>, a: Addr, ch: seq<Entry>, t: TaskId)
    requires ChainMembers(live, a, ch) && forall p :: 0 <= p < |ch| ==> ch[p].task != t
    ensures ChainMembers(live - {t}, a, ch)
  {
  }

  lemma DropEntry(live: map<TaskId, seq<Clause>>, a: Addr, ch: seq<Entry>, p: nat)
    requires p < |ch| && ChainMembers(live, a, ch) && ChainShape(ch)
    requires forall i :: p < i < |ch| && ch[i].redundantOut ==> !Covers(ch, p, i)
    ensures ChainMembers(live - {ch[p].task}, a, Without(ch, ch[p].task))
    ensures ChainShape(Without(ch, ch[p].task))
  {
    WithoutAt(ch, ch[p].task, p);
    DropMembers(live, a, ch, p);
    DropShape(ch, p);
  }

  lemma FinishChains(st: State, t: TaskId)
    requires Inv(st) && t in st.live && st.numDependees[t] == 0
    ensures ChainsOk(Finish(st, t))
  {
    var r := Finish(st, t);
    forall a ensures Chain(r, a) == Without(Chain(st, a), t) { }
    forall a ensures ChainMembers(r.live, a, Chain(r, a)) && ChainShape(Chain(r, a)) {
      FinishChainAt(st, t, a);
    }
  }

  lemma FinishEdge(st: State, t: TaskId)
    ensures forall p, x :: Edge(Finish(st, t), p, x) <==> Edge(st, p, x) && p != t
  {
  }

  lemma FinishEdges(st: State, t: TaskId)
    requires EdgesOk(st) && t in st.live && st.numDependees[t] == 0
    ensures EdgesOk(Finish(st, t))
  {
    var r := Finish(st, t);
    FinishEdge(st, t);
    NoInEdges(st, t);
    assert VectorsOk(r) by {
      forall s, x | Edge(r, s, x) ensures s < x && x in r.live { assert Edge(st, s, x); }
      forall s | s in r.dependers ensures Increasing(r.dependers[s]) { assert r.dependers[s] == st.dependers[s]; }
    }
    forall x | x in r.live
      ensures r.numDependees[x] == |InEdges(r, x)|
    {
      FinishCount(st, t, x);
    }
  }

  lemma NoInEdges(st: State, t: TaskId)
    requires EdgesOk(st) && t in st.live && st.numDependees[t] == 0
    ensures forall p :: !Edge(st, p, t)
  {
    forall p ensures !Edge(st, p, t) { assert Edge(st, p, t) ==> p in InEdges(st, t); }
  }

  lemma FinishCount(st: State, t: TaskId, x: TaskId)
    requires EdgesOk(st) && x in st.live && x != t
    ensures |InEdges(Finish(st, t), x)| ==
            if x in DependersOf(st, t) then st.numDependees[x] - 1 else st.numDependees[x]
  {
    var r := Finish(st, t);
    assert InEdges(r, x) == InEdges(st, x) - {t};
    assert t in InEdges(st, x) <==> x in DependersOf(st, t);
  }

  lemma FinishEnforced(st: State, t: TaskId)
    requires Inv(st) && t in st.live && st.numDependees[t] == 0
    ensures Enforced(Finish(st, t)) && EdgesSound(Finish(st, t))
  {
    var r := Finish(st, t);
    FinishEdge(st, t);
    forall s, x | s in r.live && x in r.live && s < x && Conflict(r.live[s], r.live[x])
      ensures Edge(r, s, x) || exists u :: Stands(r, s, u, x)
    {
      if !Edge(st, s, x) {
        var u :| Stands(st, s, u, x);
        if u == t {
          HeldBack(st, s, t);
        }
        assert Stands(r, s, u, x);
      }
    }
    forall s: TaskId, x: TaskId | Edge(r, s, x) && s in r.live && x in r.live
      ensures Conflict(r.live[s], r.live[x])
    {
      assert Edge(st, s, x);
    }
  }

  lemma FinishChildren(st: State, t: TaskId)
    requires EdgesOk(st) && Counted(st) && t in st.live && st.numDependees[t] == 0
    ensures var r := Finish(st, t);
      r.children == set x | x in r.live && x in r.numDependees && r.numDependees[x] == 0
  {
    var r := Finish(st, t);
    forall x | x in st.live && x in DependersOf(st, t)
      ensures st.numDependees[x] != 0
    {
      assert t in InEdges(st, x);
    }
    forall x | x in DependersOf(st, t) ensures x in st.live { assert Edge(st, t, x); }
  }

  lemma FinishCounted(st: State, t: TaskId)
    requires EdgesOk(st) && Counted(st) && t in st.live && st.numDependees[t] == 0
    ensures Counted(Finish(st, t))
  {
    FinishChildren(st, t);
    assert Released(st, t) !! st.children && t in st.children;
    assert |st.children + Released(st, t) - {t}| == |st.children| + |Released(st, t)| - 1;
  }

  /** Only a released task runs, so only a released task terminates. */
  lemma FinishKeeps(st: State, t: TaskId)
    requires Inv(st) && Counted(st) && t in st.children
    ensures Inv(Finish(st, t)) && Counted(Finish(st, t)) && Finish(st, t).live == st.live - {t}
    ensures forall p, x :: Edge(Finish(st, t), p, x) <==> Edge(st, p, x) && p != t
  {
    FinishChains(st, t);
    FinishEdges(st, t);
    FinishEdge(st, t);
    FinishEnforced(st, t);
    FinishCounted(st, t);
  }

  // ---------- Whole runs ----------

  datatype Op = CreateOp(clauses: seq<Clause>) | FinishOp(task: TaskId)

  predicate Enabled(st: State, op: Op) {
    match op
    case CreateOp(cs) => OutsFirst(cs)
    case FinishOp(t) => t in st.children
  }

  function Apply(st: State, op: Op): State {
    match op
    case CreateOp(cs) => Create(st, cs)
    case FinishOp(t) => Finish(st, t)
  }

  ghost predicate Reaches(st: State, ops: seq<Op>, r: State)
    decreases |ops|
  {
    if ops == [] then r == st
    else Enabled(st, ops[0]) && Reaches(Apply(st, ops[0]), ops[1..], r)
  }

  lemma {:induction false} RunKeeps(st: State, ops: seq<Op>, r: State)
    requires Inv(st) && Counted(st) && Reaches(st, ops, r)
    ensures Inv(r) && Counted(r)
    decreases |ops|
  {
    if ops != [] {
      ApplyKeeps(st, ops[0]);
      RunKeeps(Apply(st, ops[0]), ops[1..], r);
    }
  }

  /** `t` is held back exactly by conflicting earlier siblings. */
  ghost predicate ExactAt(st: State, t: TaskId) {
    t in st.live && t in st.numDependees &&
    (st.numDependees[t] == 0 <==> forall s :: s in st.live && s < t ==> !Conflict(st.live[s], st.live[t]))
  }

  /** `t` is reached along depender edges from a queued or running sibling. */
  ghost predicate Reachable(st: State, t: TaskId) {
    exists p :: p != [] && p[|p| - 1] == t && Path(st, p) && p[0] in st.children
  }

  /** Over every run of creations and terminations: the counters are exact, every outstanding child
      is reached from a released one, and task_count is zero only when nothing is outstanding. */
  lemma DependenceTheorem(ops: seq<Op>, r: State)
    requires Reaches(Empty, ops, r)
    ensures forall t :: t in r.live ==> ExactAt(r, t) && Reachable(r, t)
    ensures r.taskCount == 0 <==> r.live == map[]
    ensures r.children == {} <==> r.live == map[]
  {
    EmptyKeeps();
    RunKeeps(Empty, ops, r);
    forall t | t in r.live
      ensures ExactAt(r, t) && Reachable(r, t)
    {
      Exact(r, t);
      var p := Progress(r, t);
      assert p[0] in r.children;
    }
    NothingOutstanding(r);
  }

  lemma EmptyKeeps()
    ensures Inv(Empty) && Counted(Empty)
  {
    forall a ensures ChainMembers(Empty.live, a, Chain(Empty, a)) && ChainShape(Chain(Empty, a)) { }
  }

  // ---------- All parents of a team ----------

  /** The children of any number of parents, counted together in team->task_count. */
  datatype Team = Team(parents: seq<State>, taskCount: int)

  datatype TeamOp = NewParent | ChildOp(parent: nat, op: Op)

  predicate TeamEnabled(tm: Team, o: TeamOp) {
    o.ChildOp? ==> o.parent < |tm.parents| && Enabled(tm.parents[o.parent], o.op)
  }

  /** Children of a parent that enter and leave the queues count in the team. */
  function TeamApply(tm: Team, o: TeamOp): Team
    requires TeamEnabled(tm, o)
  {
    match o
    case NewParent => tm.(parents := tm.parents + [Empty])
    case ChildOp(p, op) =>
      var st := tm.parents[p];
      var queued, gone := Apply(st, op).children - st.children, st.children - Apply(st, op).children;
      Team(tm.parents[p := Apply(st, op)], tm.taskCount + |queued| - |gone|)
  }

  ghost predicate TeamReaches(tm: Team, ops: seq<TeamOp>, r: Team)
    decreases |ops|
  {
    if ops == [] then r == tm
    else TeamEnabled(tm, ops[0]) && TeamReaches(TeamApply(tm, ops[0]), ops[1..], r)
  }

  /** The queued and running children of all parents. */
  function Total(ps: seq<State>): nat {
    if ps == [] then 0 else |ps[0].children| + Total(ps[1..])
  }

  ghost predicate Fine(st: State) {
    Inv(st) && Counted(st)
  }

  ghost predicate AllFine(ps: seq<State>) {
    forall p :: 0 <= p < |ps| ==> Fine(ps[p])
  }

  ghost predicate TeamInv(tm: Team) {
    AllFine(tm.parents) && tm.taskCount == Total(tm.parents)
  }

  lemma {:induction false} TotalAppend(ps: seq<State>)
    ensures Total(ps + [Empty]) == Total(ps)
  {
    if ps != [] {
      TotalAppend(ps[1..]);
      assert (ps + [Empty])[1..] == ps[1..] + [Empty];
    }
  }

  lemma {:induction false} TotalUpdate(ps: seq<State>, p: nat, st: State)
    requires p < |ps|
    ensures Total(ps[p := st]) == Total(ps) + |st.children| - |ps[p].children|
  {
    if p > 0 {
      TotalUpdate(ps[1..], p - 1, st);
      assert ps[p := st][1..] == ps[1..][p - 1 := st];
    }
  }

  lemma {:induction false} TotalZero(ps: seq<State>)
    ensures Total(ps) == 0 <==> forall p :: 0 <= p < |ps| ==> ps[p].children == {}
  {
    if ps != [] {
      TotalZero(ps[1..]);
      assert forall p :: 0 < p < |ps| ==> ps[p] == ps[1..][p - 1];
    }
  }

  lemma Changed(a: set<TaskId>, b: set<TaskId>)
    ensures |b| == |a| + |b - a| - |a - b|
  {
    assert a == (a * b) + (a - b) && b == (a * b) + (b - a);
  }

  lemma ApplyKeeps(st: State, op: Op)
    requires Inv(st) && Counted(st) && Enabled(st, op)
    ensures Inv(Apply(st, op)) && Counted(Apply(st, op))
  {
    match op {
      case CreateOp(cs) => CreateKeeps(st, cs);
      case FinishOp(t) => FinishKeeps(st, t);
    }
  }

  lemma FineUpdate(ps: seq<State>, p: nat, st: State)
    requires AllFine(ps) && p < |ps| && Fine(st)
    ensures AllFine(ps[p := st])
  {
  }

  lemma ApplyFine(ps: seq<State>, p: nat, op: Op)
    requires AllFine(ps) && p < |ps| && Enabled(ps[p], op)
    ensures AllFine(ps[p := Apply(ps[p], op)])
  {
    assert Fine(ps[p]);
    ApplyKeeps(ps[p], op);
    FineUpdate(ps, p, Apply(ps[p], op));
  }

  lemma NewFine(ps: seq<State>)
    requires AllFine(ps)
    ensures AllFine(ps + [Empty])
  {
    EmptyKeeps();
    assert Fine(Empty);
  }

  lemma TeamStep(tm: Team, o: TeamOp)
    requires TeamInv(tm) && TeamEnabled(tm, o)
    ensures TeamInv(TeamApply(tm, o))
  {
    match o {
      case NewParent =>
        NewFine(tm.parents);
        TotalAppend(tm.parents);
      case ChildOp(p, op) =>
        ApplyFine(tm.parents, p, op);
        Changed(tm.parents[p].children, Apply(tm.parents[p], op).children);
        TotalUpdate(tm.parents, p, Apply(tm.parents[p], op));
    }
  }

  lemma {:induction false} TeamRunKeeps(tm: Team, ops: seq<TeamOp>, r: Team)
    requires TeamInv(tm) && TeamReaches(tm, ops, r)
    ensures TeamInv(r)
    decreases |ops|
  {
    if ops != [] {
      TeamStep(tm, ops[0]);
      TeamRunKeeps(TeamApply(tm, ops[0]), ops[1..], r);
    }
  }

  /** In every run over the children of any number of parents, task_count counts the queued and running
      ones of all of them, and it is zero exactly when no parent has an outstanding child. */
  lemma TeamTheorem(ops: seq<TeamOp>, r: Team)
    requires TeamReaches(Team([], 0), ops, r)
    ensures r.taskCount == Total(r.parents)
    ensures r.taskCount == 0 <==> forall p :: 0 <= p < |r.parents| ==> r.parents[p].live == map[]
  {
    TeamRunKeeps(Team([], 0), ops, r);
    TotalZero(r.parents);
    forall p | 0 <= p < |r.parents| ensures r.parents[p].children == {} <==> r.parents[p].live == map[] {
      assert Fine(r.parents[p]);
      NothingOutstanding(r.parents[p]);
    }
  }
}
