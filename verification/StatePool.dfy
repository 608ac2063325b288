/** The pool of task states (state.c): free lists of the threads, a global list between them, and blocks that
    are freed at the end of the group. */
module StatePool {
  import opened Chains
  import Links

  /** A list with its counter. */
  datatype Lst = Lst(head: Ptr, size: int)

  /** The next fields of the states, the lists of the threads, the global list and the number allocated. */
  datatype State = State(next: map<Id, Ptr>, local: seq<Lst>, global: Lst, total: nat)

  function Next(st: State, x: Id): Ptr {
    if x in st.next then st.next[x] else Null
  }

  // ---------- Steps ----------

  /** The loop over at most `count` nodes: the last one and how many they are. */
  function Walk(next: map<Id, Ptr>, x: Id, count: nat): (Id, nat)
    decreases count
  {
    if count > 1 && x in next && next[x].To? then
      var r := Walk(next, next[x].id, count - 1);
      (r.0, r.1 + 1)
    else (x, 1)
  }

  /** gomp_get_task_state from the thread's own list. */
  function Pop(st: State, t: nat, x: Id): State
    requires t < |st.local|
  {
    st.(local := st.local[t := Lst(Next(st, x), st.local[t].size - 1)], next := st.next[x := Null])
  }

  /** gomp_get_task_state from the global list, under its lock: up to `count` states, of which one is returned. */
  function Grab(st: State, t: nat, x: Id, count: nat): State
    requires t < |st.local|
  {
    var r := Walk(st.next, x, count);
    var next' := st.next[r.0 := Null];
    State(next'[x := Null],
          st.local[t := Lst(if x in next' then next'[x] else Null, st.local[t].size + r.1 - 1)],
          Lst(Next(st, r.0), st.global.size - r.1), st.total)
  }

  /** gomp_task_state_list_init gives a thread its first block. */
  function Init(st: State, t: nat, block: seq<Id>): State
    requires t < |st.local|
  {
    State(BlockLinks(st.next, block), st.local[t := Lst(PtrAt(block, 0), |block|)], st.global, st.total + |block|)
  }

  /** gomp_get_task_state with a new block. */
  function Grow(st: State, t: nat, block: seq<Id>): State
    requires t < |st.local| && block != []
  {
    Pop(Init(st, t, block), t, block[0])
  }

  /** gomp_free_task_state: the state goes to the thread's own list. */
  function Push(st: State, t: nat, x: Id): State
    requires t < |st.local|
  {
    st.(next := st.next[x := st.local[t].head], local := st.local[t := Lst(To(x), st.local[t].size + 1)])
  }

  /** gomp_free_task_state, under the global lock: up to `count` states go to the global list. */
  function Spill(st: State, t: nat, x: Id, count: nat): State
    requires t < |st.local|
  {
    var r := Walk(st.next, x, count);
    State(st.next[r.0 := st.global.head], st.local[t := Lst(Next(st, r.0), st.local[t].size - r.1)],
          Lst(To(x), st.global.size + r.1), st.total)
  }

  // ---------- Where every state is ----------

  datatype Place = Local(t: nat) | Global | Held

  /** The lists as sequences, and the place of every state allocated so far. */
  datatype View = View(lists: seq<seq<Id>>, glob: seq<Id>, place: map<Id, Place>)

  /** `s` are exactly the states at place `p`. */
  ghost predicate Members(place: map<Id, Place>, s: seq<Id>, p: Place) {
    && (forall x :: x in s ==> x in place && place[x] == p)
    && (forall x :: x in place && place[x] == p ==> x in s)
  }

  ghost predicate ListOk(next: map<Id, Ptr>, place: map<Id, Place>, l: Lst, s: seq<Id>, p: Place) {
    Chain(next, l.head, s) && l.size == |s| && Members(place, s, p)
  }

  /** Every state is in one list or held, the lists are as long as their counters say, and the number of
      states is the number allocated. */
  ghost predicate Inv(st: State, v: View) {
    && |st.local| == |v.lists|
    && (forall t: nat {:trigger ListOk(st.next, v.place, st.local[t], v.lists[t], Local(t))} ::
          t < |st.local| ==> ListOk(st.next, v.place, st.local[t], v.lists[t], Local(t)))
    && ListOk(st.next, v.place, st.global, v.glob, Global)
    && st.total == |v.place|
    && (forall x :: x in v.place ==> x in st.next)
    && (forall x :: x in v.place && v.place[x].Local? ==> v.place[x].t < |st.local|)
  }

  // ---------- Lists that stay and lists that change ----------

  /** A write to a state elsewhere and moves between other places leave a list alone. */
  lemma ListFrame(next: map<Id, Ptr>, place: map<Id, Place>, l: Lst, s: seq<Id>, p: Place, y: Id, q: Ptr, place': map<Id, Place>)
    requires ListOk(next, place, l, s, p) && y !in s
    requires forall x :: (x in place && place[x] == p) <==> (x in place' && place'[x] == p)
    ensures ListOk(next[y := q], place', l, s, p)
  {
    ChainFrame(next, l.head, s, y, q);
  }

  lemma {:induction false} WalkChain(next: map<Id, Ptr>, s: seq<Id>, count: nat)
    requires s != [] && Chain(next, To(s[0]), s) && count > 0
    ensures var k := if count < |s| then count else |s|; Walk(next, s[0], count) == (s[k - 1], k)
    decreases count
  {
    assert ChainAt(next, s, 0);
    if count > 1 && |s| > 1 {
      TailChain(next, To(s[0]), s);
      WalkChain(next, s[1..], count - 1);
    }
  }

  /** The first `k` nodes are put in front of another list. */
  lemma Splice(next: map<Id, Ptr>, s: seq<Id>, k: nat, head: Ptr, r: seq<Id>)
    requires 0 < k <= |s| && Chain(next, To(s[0]), s) && Chain(next, head, r) && forall x :: x in s ==> x !in r
    ensures Chain(next[s[k - 1] := head], To(s[0]), s[..k] + r)
    ensures Chain(next[s[k - 1] := head], PtrAt(s, k), s[k..])
  {
    var next', a, b := next[s[k - 1] := head], s[..k] + r, s[k..];
    assert s[k - 1] in s;
    forall i, j | 0 <= i < j < |a| ensures a[i] != a[j] {
      assert i < k ==> a[i] in s;
      assert j >= k ==> a[j] in r;
    }
    forall i | 0 <= i < |a| ensures ChainAt(next', a, i) {
      if i < k { assert ChainAt(next, s, i); } else { assert ChainAt(next, r, i - k); }
    }
    forall i | 0 <= i < |b| ensures ChainAt(next', b, i) { assert ChainAt(next, s, k + i); }
  }

  function PlaceAll(place: map<Id, Place>, s: seq<Id>, p: Place): map<Id, Place> {
    map x | x in place :: if x in s then p else place[x]
  }

  lemma SameSize(place: map<Id, Place>, place': map<Id, Place>)
    requires place.Keys == place'.Keys
    ensures |place| == |place'|
  {
    assert |place| == |place.Keys| && |place'| == |place'.Keys|;
  }

  // ---------- Own list ----------

  function PopView(v: View, t: nat): View
    requires t < |v.lists| && v.lists[t] != []
  {
    View(v.lists[t := v.lists[t][1..]], v.glob, v.place[v.lists[t][0] := Held])
  }

  lemma PopKeeps(st: State, v: View, t: nat)
    requires Inv(st, v) && t < |st.local| && st.local[t].head.To?
    ensures v.lists[t] != [] && st.local[t].head == To(v.lists[t][0]) && Inv(Pop(st, t, v.lists[t][0]), PopView(v, t))
  {
    var s := v.lists[t];
    assert ListOk(st.next, v.place, st.local[t], s, Local(t));
    var x := s[0];
    var st', v' := Pop(st, t, x), PopView(v, t);
    TailChain(st.next, To(x), s);
    ChainFrame(st.next, st.next[x], s[1..], x, Null);
    forall u: nat | u < |st'.local| ensures ListOk(st'.next, v'.place, st'.local[u], v'.lists[u], Local(u)) {
      assert ListOk(st.next, v.place, st.local[u], v.lists[u], Local(u));
      if u != t {
        ListFrame(st.next, v.place, st.local[u], v.lists[u], Local(u), x, Null, v'.place);
      } else {
        assert s == [x] + s[1..];
      }
    }
    ListFrame(st.next, v.place, st.global, v.glob, Global, x, Null, v'.place);
    SameSize(v.place, v'.place);
  }

  function PushView(v: View, t: nat, x: Id): View
    requires t < |v.lists|
  {
    View(v.lists[t := [x] + v.lists[t]], v.glob, v.place[x := Local(t)])
  }

  lemma PushKeeps(st: State, v: View, t: nat, x: Id)
    requires Inv(st, v) && t < |st.local| && x in v.place && v.place[x] == Held
    ensures Inv(Push(st, t, x), PushView(v, t, x))
  {
    var s := v.lists[t];
    assert ListOk(st.next, v.place, st.local[t], s, Local(t));
    var st', v' := Push(st, t, x), PushView(v, t, x);
    forall i | 0 <= i < |s| + 1 ensures ChainAt(st'.next, [x] + s, i) {
      if i > 0 { assert ChainAt(st.next, s, i - 1); }
    }
    forall u: nat | u < |st'.local| ensures ListOk(st'.next, v'.place, st'.local[u], v'.lists[u], Local(u)) {
      assert ListOk(st.next, v.place, st.local[u], v.lists[u], Local(u));
      if u != t {
        ListFrame(st.next, v.place, st.local[u], v.lists[u], Local(u), x, st.local[t].head, v'.place);
      }
    }
    ListFrame(st.next, v.place, st.global, v.glob, Global, x, st.local[t].head, v'.place);
    SameSize(v.place, v'.place);
  }

  // ---------- The global list ----------

  function SpillView(v: View, t: nat, k: nat): View
    requires t < |v.lists| && k <= |v.lists[t]|
  {
    View(v.lists[t := v.lists[t][k..]], v.lists[t][..k] + v.glob, PlaceAll(v.place, v.lists[t][..k], Global))
  }

  /** Members of a list that loses its first `k` states to place `q`. */
  lemma MembersLose(place: map<Id, Place>, s: seq<Id>, p: Place, k: nat, q: Place)
    requires Members(place, s, p) && Links.Distinct(s) && k <= |s| && p != q
    ensures Members(PlaceAll(place, s[..k], q), s[k..], p)
  {
    assert s == s[..k] + s[k..];
  }

  lemma MembersGain(place: map<Id, Place>, s: seq<Id>, p: Place, r: seq<Id>, q: Place)
    requires Members(place, r, q) && (forall x :: x in s ==> x in place && place[x] == p) && p != q
    ensures Members(PlaceAll(place, s, q), s + r, q)
  {
  }

  lemma OtherLists(st: State, v: View, t: nat, y: Id, q: Ptr, place': map<Id, Place>)
    requires Inv(st, v) && y in v.place && (v.place[y] == Local(t) || v.place[y] == Global)
    requires forall x, u: nat :: u != t ==> ((x in v.place && v.place[x] == Local(u)) <==> (x in place' && place'[x] == Local(u)))
    ensures forall u: nat :: u < |st.local| && u != t ==> ListOk(st.next[y := q], place', st.local[u], v.lists[u], Local(u))
  {
    var next' := st.next[y := q];
    forall u: nat | u < |st.local| && u != t ensures ListOk(next', place', st.local[u], v.lists[u], Local(u)) {
      assert ListOk(st.next, v.place, st.local[u], v.lists[u], Local(u));
      ListFrame(st.next, v.place, st.local[u], v.lists[u], Local(u), y, q, place');
    }
  }

  lemma SpillKeeps(st: State, v: View, t: nat, count: nat)
    requires Inv(st, v) && t < |st.local| && st.local[t].head.To? && count > 0
    ensures v.lists[t] != [] && var k := if count < |v.lists[t]| then count else |v.lists[t]|;
      Inv(Spill(st, t, v.lists[t][0], count), SpillView(v, t, k))
  {
    var s := v.lists[t];
    assert ListOk(st.next, v.place, st.local[t], s, Local(t));
    var k := if count < |s| then count else |s|;
    var st', v' := Spill(st, t, s[0], count), SpillView(v, t, k);
    WalkChain(st.next, s, count);
    assert ChainAt(st.next, s, k - 1);
    Splice(st.next, s, k, st.global.head, v.glob);
    MembersLose(v.place, s, Local(t), k, Global);
    MembersGain(v.place, s[..k], Local(t), v.glob, Global);
    assert s[k - 1] in s;
    OtherLists(st, v, t, s[k - 1], st.global.head, v'.place);
    SameSize(v.place, v'.place);
  }

  /** The first `k` states come off the global list, before one of them is returned. */
  function Detached(st: State, t: nat, x: Id, count: nat): State
    requires t < |st.local|
  {
    var r := Walk(st.next, x, count);
    State(st.next[r.0 := Null], st.local[t := Lst(To(x), st.local[t].size + r.1)], Lst(Next(st, r.0), st.global.size - r.1), st.total)
  }

  function DetachedView(v: View, t: nat, k: nat): View
    requires t < |v.lists| && k <= |v.glob|
  {
    View(v.lists[t := v.glob[..k]], v.glob[k..], PlaceAll(v.place, v.glob[..k], Local(t)))
  }

  lemma DetachLists(st: State, v: View, t: nat, count: nat, k: nat)
    requires ListOk(st.next, v.place, st.global, v.glob, Global) && v.glob != [] && Members(v.place, [], Local(t))
    requires count > 0 && k == if count < |v.glob| then count else |v.glob|
    ensures var next', place' := st.next[v.glob[k - 1] := Null], PlaceAll(v.place, v.glob[..k], Local(t));
      && Walk(st.next, v.glob[0], count) == (v.glob[k - 1], k) && Next(st, v.glob[k - 1]) == PtrAt(v.glob, k)
      && ListOk(next', place', Lst(To(v.glob[0]), k), v.glob[..k], Local(t))
      && ListOk(next', place', Lst(PtrAt(v.glob, k), |v.glob| - k), v.glob[k..], Global)
  {
    var s := v.glob;
    WalkChain(st.next, s, count);
    assert ChainAt(st.next, s, k - 1);
    Splice(st.next, s, k, Null, []);
    assert s[..k] + [] == s[..k];
    MembersLose(v.place, s, Global, k, Local(t));
    MembersGain(v.place, s[..k], Global, [], Local(t));
  }

  lemma DetachKeeps(st: State, v: View, t: nat, count: nat)
    requires Inv(st, v) && t < |st.local| && st.local[t].head == Null && st.global.head.To? && count > 0
    ensures v.glob != [] && var k := if count < |v.glob| then count else |v.glob|;
      Inv(Detached(st, t, v.glob[0], count), DetachedView(v, t, k))
  {
    var s := v.glob;
    assert ListOk(st.next, v.place, st.local[t], v.lists[t], Local(t));
    assert v.lists[t] == [];
    var k := if count < |s| then count else |s|;
    var v' := DetachedView(v, t, k);
    DetachLists(st, v, t, count, k);
    assert s[k - 1] in s;
    forall x | x in s[..k] ensures x in s { }
    OtherLists(st, v, t, s[k - 1], Null, v'.place);
    SameSize(v.place, v'.place);
  }

  lemma GrabIsPop(st: State, t: nat, x: Id, count: nat)
    requires t < |st.local|
    ensures Grab(st, t, x, count) == Pop(Detached(st, t, x, count), t, x)
  {
    var a, b := Grab(st, t, x, count), Pop(Detached(st, t, x, count), t, x);
    assert a.local == b.local;
  }

  // ---------- New blocks ----------

  function Ids(s: seq<Id>): set<Id> {
    set y | y in s
  }

  function WithBlock(place: map<Id, Place>, block: seq<Id>, p: Place): map<Id, Place> {
    map x | x in place.Keys + Ids(block) :: if x in block then p else place[x]
  }

  function InitView(v: View, t: nat, block: seq<Id>): View
    requires t < |v.lists|
  {
    View(v.lists[t := block], v.glob, WithBlock(v.place, block, Local(t)))
  }

  lemma {:induction false} BlockSize(s: seq<Id>)
    requires Links.Distinct(s)
    ensures |Ids(s)| == |s|
  {
    if s == [] {
      assert Ids(s) == {};
    } else {
      BlockSize(s[1..]);
      assert s[0] !in s[1..];
      assert Ids(s) == Ids(s[1..]) + {s[0]};
    }
  }

  lemma InitSize(place: map<Id, Place>, block: seq<Id>, p: Place)
    requires Links.Distinct(block) && forall x :: x in block ==> x !in place
    ensures |WithBlock(place, block, p)| == |place| + |block|
  {
    var place' := WithBlock(place, block, p);
    BlockSize(block);
    assert place'.Keys == place.Keys + Ids(block);
    assert place.Keys !! Ids(block);
    assert |place'| == |place'.Keys| && |place| == |place.Keys|;
  }

  lemma InitPlaces(next: map<Id, Ptr>, v: View, t: nat, block: seq<Id>)
    requires t < |v.lists| && NewBlock(next, block) && forall x :: x in v.place ==> x in next
    ensures |InitView(v, t, block).place| == |v.place| + |block|
    ensures forall x :: x in v.place ==> x in InitView(v, t, block).place && InitView(v, t, block).place[x] == v.place[x]
    ensures forall x :: x in InitView(v, t, block).place && x !in v.place ==> x in block
    ensures forall x :: x in block ==> x in InitView(v, t, block).place && InitView(v, t, block).place[x] == Local(t)
  {
    InitSize(v.place, block, Local(t));
  }

  /** A list elsewhere does not notice a new block. */
  lemma InitOther(next: map<Id, Ptr>, place: map<Id, Place>, l: Lst, s: seq<Id>, p: Place, block: seq<Id>, t: nat)
    requires ListOk(next, place, l, s, p) && NewBlock(next, block) && p != Local(t) && forall x :: x in place ==> x in next
    ensures ListOk(BlockLinks(next, block), WithBlock(place, block, Local(t)), l, s, p)
  {
    ChainFrameBlock(next, l.head, s, block);
  }

  lemma InitOwn(next: map<Id, Ptr>, place: map<Id, Place>, block: seq<Id>, t: nat)
    requires Members(place, [], Local(t)) && NewBlock(next, block)
    ensures ListOk(BlockLinks(next, block), WithBlock(place, block, Local(t)), Lst(PtrAt(block, 0), |block|), block, Local(t))
  {
    BlockChainWhole(next, block);
  }

  lemma InitKeeps(st: State, v: View, t: nat, block: seq<Id>)
    requires Inv(st, v) && t < |st.local| && st.local[t].head == Null && NewBlock(st.next, block)
    ensures Inv(Init(st, t, block), InitView(v, t, block))
  {
    var st', v' := Init(st, t, block), InitView(v, t, block);
    InitPlaces(st.next, v, t, block);
    assert ListOk(st.next, v.place, st.local[t], v.lists[t], Local(t));
    assert v.lists[t] == [];
    InitOwn(st.next, v.place, block, t);
    forall u: nat | u < |st'.local| ensures ListOk(st'.next, v'.place, st'.local[u], v'.lists[u], Local(u)) {
      if u != t {
        assert ListOk(st.next, v.place, st.local[u], v.lists[u], Local(u));
        InitOther(st.next, v.place, st.local[u], v.lists[u], Local(u), block, t);
      }
    }
    InitOther(st.next, v.place, st.global, v.glob, Global, block, t);
  }

  // ---------- Blocks ----------

  /** list_to_free of every thread; the first states of its blocks are linked through next_to_free. */
  datatype Blocks = Blocks(nextToFree: map<Id, Ptr>, toFree: seq<Ptr>)

  function AddBlock(b: Blocks, t: nat, x: Id): Blocks
    requires t < |b.toFree|
  {
    Blocks(b.nextToFree[x := b.toFree[t]], b.toFree[t := To(x)])
  }

  /** `heads[t]` are the blocks of thread `t`, `owner` the thread of each block, and `blockOf` the block of each
      state. */
  datatype BlockView = BlockView(heads: seq<seq<Id>>, owner: map<Id, nat>, blockOf: map<Id, Id>)

  ghost predicate HeadsOk(b: Blocks, w: BlockView, t: nat)
    requires t < |b.toFree| && t < |w.heads|
  {
    && Chain(b.nextToFree, b.toFree[t], w.heads[t])
    && (forall x :: x in w.heads[t] ==> x in w.owner && w.owner[x] == t)
    && (forall x :: x in w.owner && w.owner[x] == t ==> x in w.heads[t])
  }

  /** Every state that was ever allocated lies in one block, and every block is on one list. */
  ghost predicate BlocksOk(b: Blocks, w: BlockView, place: map<Id, Place>) {
    && |b.toFree| == |w.heads|
    && (forall t: nat {:trigger HeadsOk(b, w, t)} :: t < |b.toFree| ==> HeadsOk(b, w, t))
    && (forall x :: x in w.owner ==> x in place && w.owner[x] < |b.toFree|)
    && w.blockOf.Keys == place.Keys && (forall x :: x in w.blockOf ==> w.blockOf[x] in w.owner)
  }

  function AddBlockView(w: BlockView, t: nat, block: seq<Id>): BlockView
    requires t < |w.heads| && block != []
  {
    BlockView(w.heads[t := [block[0]] + w.heads[t]], w.owner[block[0] := t],
              map x | x in w.blockOf.Keys + Ids(block) :: if x in block then block[0] else w.blockOf[x])
  }

  lemma AddBlockHeads(b: Blocks, w: BlockView, t: nat, block: seq<Id>, u: nat)
    requires |b.toFree| == |w.heads| && t < |b.toFree| && u < |b.toFree| && HeadsOk(b, w, u) && block != [] && block[0] !in w.owner
    ensures HeadsOk(AddBlock(b, t, block[0]), AddBlockView(w, t, block), u)
  {
    var x := block[0];
    var b', w' := AddBlock(b, t, x), AddBlockView(w, t, block);
    if u == t {
      forall i | 0 <= i < |w'.heads[t]| ensures ChainAt(b'.nextToFree, w'.heads[t], i) {
        if i > 0 { assert ChainAt(b.nextToFree, w.heads[t], i - 1); }
      }
    } else {
      ChainFrame(b.nextToFree, b.toFree[u], w.heads[u], x, b.toFree[t]);
    }
  }

  lemma AddBlockKeeps(b: Blocks, w: BlockView, place: map<Id, Place>, place': map<Id, Place>, t: nat, block: seq<Id>)
    requires BlocksOk(b, w, place) && t < |b.toFree| && block != [] && (forall x :: x in block ==> x !in place)
    requires place'.Keys == place.Keys + Ids(block)
    ensures BlocksOk(AddBlock(b, t, block[0]), AddBlockView(w, t, block), place')
  {
    var b', w' := AddBlock(b, t, block[0]), AddBlockView(w, t, block);
    assert block[0] in block;
    forall u: nat | u < |b'.toFree| ensures HeadsOk(b', w', u) {
      assert HeadsOk(b, w, u);
      AddBlockHeads(b, w, t, block, u);
    }
  }

  lemma BlocksFrame(b: Blocks, w: BlockView, place: map<Id, Place>, place': map<Id, Place>)
    requires BlocksOk(b, w, place) && place'.Keys == place.Keys
    ensures BlocksOk(b, w, place')
  {
    forall t: nat | t < |b.toFree| ensures HeadsOk(b, w, t) { }
  }

  /** gomp_task_state_list_end: the blocks of one thread. */
  method FreeList(b: Blocks, t: nat, ghost w: BlockView) returns (freed: seq<Id>)
    requires t < |b.toFree| && t < |w.heads| && HeadsOk(b, w, t)
    ensures freed == w.heads[t]
  {
    freed := [];
    var state := b.toFree[t];
    while state.To?
      invariant |freed| <= |w.heads[t]| && freed == w.heads[t][..|freed|] && state == PtrAt(w.heads[t], |freed|)
      decreases |w.heads[t]| - |freed|
    {
      assert ChainAt(b.nextToFree, w.heads[t], |freed|);
      freed := freed + [state.id];
      state := b.nextToFree[state.id];
    }
  }

  /** gomp_task_state_list_group_end: every block is freed, and none twice, wherever its states are by now. */
  method GroupEnd(b: Blocks, ghost w: BlockView, ghost place: map<Id, Place>) returns (freed: seq<Id>)
    requires BlocksOk(b, w, place)
    ensures Links.Distinct(freed) && (forall x :: x in freed <==> x in w.owner)
    ensures forall x :: x in place ==> x in w.blockOf && w.blockOf[x] in freed
  {
    freed := [];
    var i := 0;
    while i < |b.toFree|
      invariant 0 <= i <= |b.toFree| && Links.Distinct(freed)
      invariant FreedBelow(freed, w.owner, i)
    {
      assert HeadsOk(b, w, i);
      var part := FreeList(b, i, w);
      FreedStep(b, w, freed, i);
      freed := freed + part;
      i := i + 1;
    }
  }

  ghost predicate FreedBelow(freed: seq<Id>, owner: map<Id, nat>, i: nat) {
    forall x :: x in freed <==> x in owner && owner[x] < i
  }

  lemma FreedStep(b: Blocks, w: BlockView, freed: seq<Id>, i: nat)
    requires i < |b.toFree| && i < |w.heads| && HeadsOk(b, w, i) && FreedBelow(freed, w.owner, i) && Links.Distinct(freed)
    ensures FreedBelow(freed + w.heads[i], w.owner, i + 1) && Links.Distinct(freed + w.heads[i])
  {
    DistinctSum(freed, w.heads[i]);
  }

  lemma DistinctSum(s: seq<Id>, r: seq<Id>)
    requires Links.Distinct(s) && Links.Distinct(r) && forall x :: x in r ==> x !in s
    ensures Links.Distinct(s + r)
  {
    forall i, j | 0 <= i < j < |s + r| ensures (s + r)[i] != (s + r)[j] {
      assert i < |s| ==> (s + r)[i] in s;
      assert j >= |s| ==> (s + r)[j] in r;
    }
  }

  // ---------- Every run ----------

  /** The pool and the states that tasks hold. */
  datatype Pool = Pool(st: State, blocks: Blocks, held: set<Id>)

  /** One step of one thread. The tests of list sizes and levels in the source only choose among these. */
  datatype Event =
    | Begin(t: nat, block: seq<Id>)
    | GetLocal(t: nat)
    | GetGlobal(t: nat, count: nat)
    | GetNew(t: nat, block: seq<Id>)
    | Free(t: nat, x: Id)
    | Share(t: nat, count: nat)

  ghost predicate Enabled(p: Pool, e: Event) {
    && e.t < |p.st.local| && e.t < |p.blocks.toFree|
    && match e
       case Begin(t, block) => p.st.local[t].head == Null && NewBlock(p.st.next, block)
       case GetLocal(t) => p.st.local[t].head.To?
       case GetGlobal(t, count) => p.st.local[t].head == Null && p.st.global.head.To? && count > 0
       case GetNew(t, block) => p.st.local[t].head == Null && NewBlock(p.st.next, block)
       case Free(t, x) => x in p.held
       case Share(t, count) => p.st.local[t].head.To? && count > 0
  }

  ghost function Step(p: Pool, e: Event): Pool
    requires Enabled(p, e)
  {
    match e
    case Begin(t, block) => p.(st := Init(p.st, t, block), blocks := AddBlock(p.blocks, t, block[0]))
    case GetLocal(t) => var x := p.st.local[t].head.id; p.(st := Pop(p.st, t, x), held := p.held + {x})
    case GetGlobal(t, count) => var x := p.st.global.head.id; p.(st := Grab(p.st, t, x, count), held := p.held + {x})
    case GetNew(t, block) => Pool(Grow(p.st, t, block), AddBlock(p.blocks, t, block[0]), p.held + {block[0]})
    case Free(t, x) => p.(st := Push(p.st, t, x), held := p.held - {x})
    case Share(t, count) => p.(st := Spill(p.st, t, p.st.local[t].head.id, count))
  }

  ghost predicate HeldAre(held: set<Id>, place: map<Id, Place>) {
    forall x :: x in held <==> x in place && place[x] == Held
  }

  ghost predicate PoolInv(p: Pool, v: View, w: BlockView) {
    Inv(p.st, v) && BlocksOk(p.blocks, w, v.place) && HeldAre(p.held, v.place)
  }

  /** Which states a step moves: a new block fills the own list; a task takes the first of the own list, after
      up to `count` have come off the front of the global one if need be; a freed state goes to the front of the
      own list; up to `count` go from the front of the own list to the front of the global one. */
  ghost predicate Moves(p: Pool, v: View, e: Event, p': Pool, v': View) {
    e.t < |v.lists| &&
    match e
    case Begin(t, block) => v' == InitView(v, t, block) && p'.held == p.held
    case GetLocal(t) => v.lists[t] != [] && v' == PopView(v, t) && p'.held == p.held + {v.lists[t][0]}
    case GetGlobal(t, count) =>
      var k := if count < |v.glob| then count else |v.glob|;
      k > 0 && v' == PopView(DetachedView(v, t, k), t) && p'.held == p.held + {v.glob[0]}
    case GetNew(t, block) => block != [] && v' == PopView(InitView(v, t, block), t) && p'.held == p.held + {block[0]}
    case Free(t, x) => v' == PushView(v, t, x) && p'.held == p.held - {x}
    case Share(t, count) => v' == SpillView(v, t, if count < |v.lists[t]| then count else |v.lists[t]|) && p'.held == p.held
  }

  lemma BeginHeld(held: set<Id>, place: map<Id, Place>, block: seq<Id>, t: nat)
    requires HeldAre(held, place) && forall x :: x in block ==> x !in place
    ensures HeldAre(held, WithBlock(place, block, Local(t))) && WithBlock(place, block, Local(t)).Keys == place.Keys + Ids(block)
  {
  }

  lemma BeginKeeps(p: Pool, v: View, w: BlockView, t: nat, block: seq<Id>)
    requires PoolInv(p, v, w) && Enabled(p, Begin(t, block))
    ensures PoolInv(Step(p, Begin(t, block)), InitView(v, t, block), AddBlockView(w, t, block))
  {
    assert forall x :: x in block ==> x !in v.place;
    InitKeeps(p.st, v, t, block);
    BeginHeld(p.held, v.place, block, t);
    AddBlockKeeps(p.blocks, w, v.place, WithBlock(v.place, block, Local(t)), t, block);
    var p', v' := Step(p, Begin(t, block)), InitView(v, t, block);
    assert Inv(p'.st, v');
    assert HeldAre(p'.held, v'.place);
  }

  /** What changes when one state moves to or from a task, or some move between lists. */
  lemma MoveOne(p: Pool, v: View, w: BlockView, x: Id, to: Place, place': map<Id, Place>)
    requires BlocksOk(p.blocks, w, v.place) && HeldAre(p.held, v.place) && x in v.place && place' == v.place[x := to]
    ensures BlocksOk(p.blocks, w, place')
    ensures HeldAre(if to == Held then p.held + {x} else p.held - {x}, place')
  {
    KeysStay(v.place, x, to);
    BlocksFrame(p.blocks, w, v.place, place');
    HeldOne(p.held, v.place, x, to);
  }

  lemma KeysStay(place: map<Id, Place>, x: Id, to: Place)
    requires x in place
    ensures place[x := to].Keys == place.Keys
  {
  }

  lemma HeldOne(held: set<Id>, place: map<Id, Place>, x: Id, to: Place)
    requires HeldAre(held, place)
    ensures HeldAre(if to == Held then held + {x} else held - {x}, place[x := to])
  {
  }

  lemma MoveMany(p: Pool, v: View, w: BlockView, s: seq<Id>, to: Place)
    requires BlocksOk(p.blocks, w, v.place) && HeldAre(p.held, v.place) && to != Held
    requires forall x :: x in s ==> x in v.place && v.place[x] != Held
    ensures BlocksOk(p.blocks, w, PlaceAll(v.place, s, to)) && HeldAre(p.held, PlaceAll(v.place, s, to))
  {
    BlocksFrame(p.blocks, w, v.place, PlaceAll(v.place, s, to));
  }

  lemma GetLocalKeeps(p: Pool, v: View, w: BlockView, t: nat) returns (v': View)
    requires PoolInv(p, v, w) && Enabled(p, GetLocal(t))
    ensures PoolInv(Step(p, GetLocal(t)), v', w) && Moves(p, v, GetLocal(t), Step(p, GetLocal(t)), v')
  {
    PopKeeps(p.st, v, t);
    v' := PopView(v, t);
    var x := v.lists[t][0];
    assert ListOk(p.st.next, v.place, p.st.local[t], v.lists[t], Local(t));
    assert x in v.lists[t];
    MoveOne(p, v, w, x, Held, v'.place);
    var p' := Step(p, GetLocal(t));
    assert Inv(p'.st, v');
  }

  lemma NewIsBeginThenGet(p: Pool, t: nat, block: seq<Id>)
    requires Enabled(p, GetNew(t, block))
    ensures Enabled(Step(p, Begin(t, block)), GetLocal(t))
    ensures Step(Step(p, Begin(t, block)), GetLocal(t)) == Step(p, GetNew(t, block))
  {
    assert Step(p, Begin(t, block)).st.local[t].head == To(block[0]);
  }

  lemma GetNewKeeps(p: Pool, v: View, w: BlockView, t: nat, block: seq<Id>) returns (v': View, w': BlockView)
    requires PoolInv(p, v, w) && Enabled(p, GetNew(t, block))
    ensures PoolInv(Step(p, GetNew(t, block)), v', w') && Moves(p, v, GetNew(t, block), Step(p, GetNew(t, block)), v')
  {
    NewIsBeginThenGet(p, t, block);
    BeginKeeps(p, v, w, t, block);
    w' := AddBlockView(w, t, block);
    v' := GetLocalKeeps(Step(p, Begin(t, block)), InitView(v, t, block), w', t);
  }

  /** The states that come off the global list before one of them is returned. */
  lemma DetachAll(p: Pool, v: View, w: BlockView, t: nat, k: nat)
    requires BlocksOk(p.blocks, w, v.place) && HeldAre(p.held, v.place) && t < |v.lists| && k <= |v.glob| && Members(v.place, v.glob, Global)
    ensures var v1 := DetachedView(v, t, k); BlocksOk(p.blocks, w, v1.place) && HeldAre(p.held, v1.place)
  {
    forall x | x in v.glob[..k] ensures x in v.glob { }
    MoveMany(p, v, w, v.glob[..k], Local(t));
  }

  lemma GetGlobalKeeps(p: Pool, v: View, w: BlockView, t: nat, count: nat) returns (v': View)
    requires PoolInv(p, v, w) && Enabled(p, GetGlobal(t, count))
    ensures PoolInv(Step(p, GetGlobal(t, count)), v', w) && Moves(p, v, GetGlobal(t, count), Step(p, GetGlobal(t, count)), v')
  {
    DetachKeeps(p.st, v, t, count);
    var x, k := v.glob[0], if count < |v.glob| then count else |v.glob|;
    DetachAll(p, v, w, t, k);
    GrabIsPop(p.st, t, x, count);
    var p1 := p.(st := Detached(p.st, t, x, count));
    assert p1.st.local[t].head == To(x);
    v' := GetLocalKeeps(p1, DetachedView(v, t, k), w, t);
  }

  lemma FreeKeeps(p: Pool, v: View, w: BlockView, t: nat, x: Id) returns (v': View)
    requires PoolInv(p, v, w) && Enabled(p, Free(t, x))
    ensures PoolInv(Step(p, Free(t, x)), v', w) && Moves(p, v, Free(t, x), Step(p, Free(t, x)), v')
  {
    PushKeeps(p.st, v, t, x);
    v' := PushView(v, t, x);
    MoveOne(p, v, w, x, Local(t), v'.place);
    var p' := Step(p, Free(t, x));
    assert Inv(p'.st, v');
  }

  lemma ShareKeeps(p: Pool, v: View, w: BlockView, t: nat, count: nat) returns (v': View)
    requires PoolInv(p, v, w) && Enabled(p, Share(t, count))
    ensures PoolInv(Step(p, Share(t, count)), v', w) && Moves(p, v, Share(t, count), Step(p, Share(t, count)), v')
  {
    SpillKeeps(p.st, v, t, count);
    var s := v.lists[t];
    var k := if count < |s| then count else |s|;
    v' := SpillView(v, t, k);
    assert ListOk(p.st.next, v.place, p.st.local[t], s, Local(t));
    forall x | x in s[..k] ensures x in s { }
    MoveMany(p, v, w, s[..k], Global);
    var p' := Step(p, Share(t, count));
    assert Inv(p'.st, v');
  }

  lemma StepKeeps(p: Pool, v: View, w: BlockView, e: Event) returns (v': View, w': BlockView)
    requires PoolInv(p, v, w) && Enabled(p, e)
    ensures PoolInv(Step(p, e), v', w') && Moves(p, v, e, Step(p, e), v')
  {
    v', w' := v, w;
    match e
    case Begin(t, block) =>
      BeginKeeps(p, v, w, t, block);
      v', w' := InitView(v, t, block), AddBlockView(w, t, block);
    case GetLocal(t) => v' := GetLocalKeeps(p, v, w, t);
    case GetGlobal(t, count) => v' := GetGlobalKeeps(p, v, w, t, count);
    case GetNew(t, block) => v', w' := GetNewKeeps(p, v, w, t, block);
    case Free(t, x) => v' := FreeKeeps(p, v, w, t, x);
    case Share(t, count) => v' := ShareKeeps(p, v, w, t, count);
  }

  ghost predicate Possible(p: Pool, events: seq<Event>)
    decreases |events|
  {
    events == [] || (Enabled(p, events[0]) && Possible(Step(p, events[0]), events[1..]))
  }

  ghost function Run(p: Pool, events: seq<Event>): Pool
    requires Possible(p, events)
    decreases |events|
  {
    if events == [] then p else Run(Step(p, events[0]), events[1..])
  }

  lemma {:induction false} RunKeeps(p: Pool, v: View, w: BlockView, events: seq<Event>) returns (v': View, w': BlockView)
    requires PoolInv(p, v, w) && Possible(p, events)
    ensures PoolInv(Run(p, events), v', w')
    decreases |events|
  {
    if events == [] {
      v', w' := v, w;
    } else {
      var v1, w1 := StepKeeps(p, v, w, events[0]);
      v', w' := RunKeeps(Step(p, events[0]), v1, w1, events[1..]);
    }
  }

  /** gomp_task_state_list_group_init. */
  function Empty(n: nat): Pool {
    Pool(State(map[], seq(n, _ => Lst(Null, 0)), Lst(Null, 0), 0), Blocks(map[], seq(n, _ => Null)), {})
  }

  /** Over every interleaving no state is lost or doubled, and the counters are right. */
  lemma PoolTheorem(n: nat, events: seq<Event>) returns (v: View, w: BlockView)
    requires Possible(Empty(n), events)
    ensures PoolInv(Run(Empty(n), events), v, w)
  {
    var p := Empty(n);
    v, w := View(seq(n, _ => []), [], map[]), BlockView(seq(n, _ => []), map[], map[]);
    forall t: nat | t < n ensures ListOk(p.st.next, v.place, p.st.local[t], v.lists[t], Local(t)) && HeadsOk(p.blocks, w, t) { }
    v, w := RunKeeps(p, v, w, events);
  }

  // ---------- In place ----------

  const NumAddState: nat := 64

  /** The loop over the first `count` nodes of a list. */
  method TakeRun(next: map<Id, Ptr>, x: Id, count: nat) returns (last: Id, taken: nat)
    requires count > 0
    ensures (last, taken) == Walk(next, x, count)
  {
    last, taken := x, 1;
    while taken < count && last in next && next[last].To?
      invariant 1 <= taken <= count
      invariant var r := Walk(next, last, count - taken + 1); Walk(next, x, count) == (r.0, r.1 + taken - 1)
      decreases count - taken
    {
      last, taken := next[last].id, taken + 1;
    }
  }

  /** The lists as the threads update them; each method is one thread's call, its critical section included. */
  class Lists {
    var next: map<Id, Ptr>
    var local: seq<Lst>
    var global: Lst
    var total: nat

    function Cur(): State
      reads this
    {
      State(next, local, global, total)
    }

    constructor (n: nat)
      ensures Cur() == Empty(n).st
    {
      next, local, global, total := map[], seq(n, _ => Lst(Null, 0)), Lst(Null, 0), 0;
    }

    method PopLocal(t: nat, x: Id)
      requires t < |local|
      modifies this`local, this`next
      ensures Cur() == Pop(old(Cur()), t, x)
    {
      local := local[t := Lst(if x in next then next[x] else Null, local[t].size - 1)];
      next := next[x := Null];
    }

    /** The part of gomp_get_task_state that holds the global lock. */
    method TakeGlobal(t: nat, x: Id)
      requires t < |local|
      modifies this`local, this`next, this`global
      ensures Cur() == Grab(old(Cur()), t, x, NumAddState)
    {
      var last, taken := TakeRun(next, x, NumAddState);
      global := Lst(if last in next then next[last] else Null, global.size - taken);
      next := next[last := Null];
      local := local[t := Lst(if x in next then next[x] else Null, local[t].size + taken - 1)];
      next := next[x := Null];
    }

    /** gomp_get_task_state: from the own list, from a global list that looked long enough, or new. */
    method GetState(t: nat, block: seq<Id>) returns (x: Id, isNew: bool)
      requires t < |local| && block != []
      modifies this
      ensures old(local[t].head.To?) ==> !isNew && x == old(local[t].head.id) && Cur() == Pop(old(Cur()), t, x)
      ensures !old(local[t].head.To?) && !isNew ==>
        old(global.head.To?) && x == old(global.head.id) && Cur() == Grab(old(Cur()), t, x, NumAddState)
      ensures isNew ==> !old(local[t].head.To?) && x == block[0] && Cur() == Grow(old(Cur()), t, block)
    {
      isNew := false;
      if local[t].head.To? {
        x := local[t].head.id;
        PopLocal(t, x);
        return;
      }
      if global.size >= NumAddState && global.head.To? {
        x := global.head.id;
        TakeGlobal(t, x);
        return;
      }
      isNew, x := true, block[0];
      next := BlockLinks(next, block);
      local := local[t := Lst(PtrAt(block, 0), |block|)];
      total := total + |block|;
      PopLocal(t, x);
    }

    /** gomp_free_task_state: to the own list, and a surplus to a global list that is not long enough yet. */
    method FreeState(t: nat, x: Id) returns (moved: nat)
      requires t < |local|
      modifies this`next, this`local, this`global
      ensures Cur() == if moved == 0 then Push(old(Cur()), t, x) else Spill(Push(old(Cur()), t, x), t, x, moved)
    {
      next := next[x := local[t].head];
      local := local[t := Lst(To(x), local[t].size + 1)];
      ghost var pushed := Cur();
      assert pushed == Push(old(Cur()), t, x);
      var level := total / |local|;
      var surplus := level / |local|;
      if surplus == 0 || local[t].size <= level + surplus || global.size >= level {
        return 0;
      }
      GiveGlobal(t, x, surplus);
      moved := surplus;
    }

    /** The part of gomp_free_task_state that holds the global lock. */
    method GiveGlobal(t: nat, x: Id, surplus: nat)
      requires t < |local| && surplus > 0
      modifies this`next, this`local, this`global
      ensures Cur() == Spill(old(Cur()), t, x, surplus)
    {
      var last, picked := TakeRun(next, x, surplus);
      local := local[t := Lst(if last in next then next[last] else Null, local[t].size - picked)];
      next := next[last := global.head];
      global := Lst(To(x), global.size + picked);
    }
  }
}
