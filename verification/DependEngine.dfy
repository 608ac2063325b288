/** The depend-clause engine of one parent, updated in place: gomp_task_handle_depend, the deferred
    branch of GOMP_task and the termination of a child, on the pointers of DependLinks. */
module DependEngine {
  import opened Depend
  import opened Links
  import opened DependLinks

  // ---------- Which entries are in the chains ----------

  type Lists = map<Addr, seq<Node>>

  type Live = map<TaskId, seq<Clause>>

  predicate IsClause(live: Live, n: Node) {
    n.task in live && n.clause < |live[n.task]|
  }

  function AddrOf(live: Live, n: Node): Addr
    requires IsClause(live, n)
  {
    live[n.task][n.clause].addr
  }

  predicate In(lists: Lists, a: Addr, n: Node) {
    a in lists && n in lists[a]
  }

  /** An entry of the chain of `a` belongs to a clause that names `a` and is not flagged redundant. */
  ghost predicate OnlyClauses(lists: Lists, live: Live, redundant: set<Node>) {
    forall a, n :: In(lists, a, n) ==> IsClause(live, n) && AddrOf(live, n) == a && n !in redundant
  }

  /** Every clause is in its chain unless it is flagged, and then an earlier one names its address. */
  ghost predicate AllClauses(lists: Lists, live: Live, redundant: set<Node>) {
    forall n :: IsClause(live, n) ==>
      if n in redundant then Uses(live[n.task][..n.clause], AddrOf(live, n)) else In(lists, AddrOf(live, n), n)
  }

  ghost predicate Placed(lists: Lists, live: Live, redundant: set<Node>) {
    OnlyClauses(lists, live, redundant) && AllClauses(lists, live, redundant)
  }

  lemma NewOutside(lists: Lists, live: Live, redundant: set<Node>, t: TaskId)
    requires OnlyClauses(lists, live, redundant) && t in live
    ensures Outside(lists, Node(t, |live[t]|))
  {
    forall a | a in lists ensures Node(t, |live[t]|) !in lists[a] {
      assert In(lists, a, Node(t, |live[t]|)) ==> IsClause(live, Node(t, |live[t]|));
    }
  }

  /** The clauses of a grown task are the old ones and the new one. */
  lemma GrowClauses(live: Live, t: TaskId, c: Clause, n: Node)
    requires t in live
    ensures var x, grown := Node(t, |live[t]|), Grow(live, t, c);
      && (IsClause(grown, n) <==> IsClause(live, n) || n == x)
      && (IsClause(live, n) ==> AddrOf(grown, n) == AddrOf(live, n) && grown[n.task][..n.clause] == live[n.task][..n.clause])
      && IsClause(grown, x) && AddrOf(grown, x) == c.addr && grown[t][..|live[t]|] == live[t]
  {
  }

  /** A clause whose address is at the head of its chain with the same task is redundant. */
  lemma FlaggedPlaced(lists: Lists, live: Live, redundant: set<Node>, t: TaskId, c: Clause)
    requires Placed(lists, live, redundant) && t in live
    requires c.addr in lists && lists[c.addr] != [] && lists[c.addr][0].task == t
    ensures Placed(lists, Grow(live, t, c), redundant + {Node(t, |live[t]|)})
  {
    var x, grown, head := Node(t, |live[t]|), Grow(live, t, c), lists[c.addr][0];
    assert In(lists, c.addr, head);
    assert live[t][head.clause].addr == c.addr;
    NewOutside(lists, live, redundant, t);
    forall a, n | In(lists, a, n)
      ensures IsClause(grown, n) && AddrOf(grown, n) == a && n !in redundant + {x}
    {
      GrowClauses(live, t, c, n);
    }
    forall n | IsClause(grown, n)
      ensures if n in redundant + {x} then Uses(grown[n.task][..n.clause], AddrOf(grown, n)) else In(lists, AddrOf(grown, n), n)
    {
      GrowClauses(live, t, c, n);
    }
  }

  lemma LinkedMembers(s: seq<Node>, x: Node, isIn: bool, j: nat, k: nat, n: Node)
    requires k <= |s|
    ensures n in LinkedNodes(s, x, isIn, j, k) <==> n == x || n in s
  {
    if !isIn && j < k {
      MovedMembers([x] + s, j + 1, k + 1, n);
    }
  }

  lemma MovedMembers(s: seq<Node>, j: nat, k: nat, n: Node)
    requires j < k <= |s|
    ensures n in Moved(s, j, k) <==> n in s
  {
    if n in s {
      var i :| 0 <= i < |s| && s[i] == n;
      assert Moved(s, j, k)[if i < j || i >= k then i else if i == j then k - 1 else i - 1] == n;
    }
  }

  lemma LinkedPlaced(lists: Lists, live: Live, redundant: set<Node>, t: TaskId, c: Clause, r: seq<Node>)
    requires Placed(lists, live, redundant) && t in live
    requires forall n :: n in r <==> n == Node(t, |live[t]|) || n in ListAt(lists, c.addr)
    ensures Placed(lists[c.addr := r], Grow(live, t, c), redundant - {Node(t, |live[t]|)})
  {
    var x, grown, lists', redundant' := Node(t, |live[t]|), Grow(live, t, c), lists[c.addr := r], redundant - {Node(t, |live[t]|)};
    forall a, n | In(lists', a, n)
      ensures IsClause(grown, n) && AddrOf(grown, n) == a && n !in redundant'
    {
      GrowClauses(live, t, c, n);
      assert n != x ==> In(lists, a, n);
      NewOutside(lists, live, redundant, t);
    }
    forall n | IsClause(grown, n)
      ensures if n in redundant' then Uses(grown[n.task][..n.clause], AddrOf(grown, n)) else In(lists', AddrOf(grown, n), n)
    {
      GrowClauses(live, t, c, n);
      assert n != x && n !in redundant ==> In(lists, AddrOf(live, n), n);
    }
  }

  /** The entries of `t` in the chains of `lists` are gone from `left`, and no others. */
  ghost predicate Stays(lists: Lists, left: Lists, t: TaskId) {
    forall a, n :: (In(left, a, n) ==> In(lists, a, n)) && (In(lists, a, n) && n.task != t ==> In(left, a, n))
  }

  lemma GonePlaced(lists: Lists, left: Lists, live: Live, redundant: set<Node>, t: TaskId)
    requires Placed(lists, live, redundant) && Stays(lists, left, t)
    requires forall a, n :: In(left, a, n) ==> n.task != t
    ensures Placed(left, live - {t}, redundant)
  {
    var rest := live - {t};
    forall a, n | In(left, a, n)
      ensures IsClause(rest, n) && AddrOf(rest, n) == a && n !in redundant
    {
      assert In(lists, a, n);
    }
    forall n | IsClause(rest, n)
      ensures if n in redundant then Uses(rest[n.task][..n.clause], AddrOf(rest, n)) else In(left, AddrOf(rest, n), n)
    {
      assert IsClause(live, n) && AddrOf(live, n) == AddrOf(rest, n);
      assert n !in redundant ==> In(lists, AddrOf(live, n), n);
    }
  }

  // ---------- Leaving the chains ----------

  /** An earlier unflagged clause of the same task with the same address, or the clause itself. */
  lemma {:induction false} Unflagged(lists: Lists, live: Live, redundant: set<Node>, t: TaskId, i: nat) returns (f: nat)
    requires AllClauses(lists, live, redundant) && t in live && i < |live[t]|
    ensures f <= i && live[t][f].addr == live[t][i].addr && Node(t, f) !in redundant
    decreases i
  {
    if Node(t, i) !in redundant {
      f := i;
    } else {
      assert IsClause(live, Node(t, i));
      var g :| 0 <= g < i && live[t][..i][g].addr == live[t][i].addr;
      f := Unflagged(lists, live, redundant, t, g);
    }
  }

  /** A task has at most one entry in a chain. */
  lemma OnePerChain(tb: Table, lists: Lists, st: State, a: Addr, n: Node, m: Node)
    requires Spells(tb, lists, st.chains) && ChainsOk(st)
    requires In(lists, a, n) && In(lists, a, m) && n.task == m.task
    ensures n == m
  {
    assert ListOk(tb, a, lists[a], st.chains[a]);
    assert ChainMembers(st.live, a, Chain(st, a));
    var p :| 0 <= p < |lists[a]| && lists[a][p] == n;
    var q :| 0 <= q < |lists[a]| && lists[a][q] == m;
    assert st.chains[a][p].task == st.chains[a][q].task;
  }

  /** A clause is flagged exactly if an earlier clause of its task names the address. */
  lemma FlaggedIff(tb: Table, lists: Lists, st: State, redundant: set<Node>, t: TaskId, i: nat)
    requires Spells(tb, lists, st.chains) && ChainsOk(st) && AllClauses(lists, st.live, redundant)
    requires t in st.live && i < |st.live[t]|
    ensures Node(t, i) in redundant <==> Uses(st.live[t][..i], st.live[t][i].addr)
  {
    var cs := st.live[t];
    assert IsClause(st.live, Node(t, i));
    if Node(t, i) !in redundant && Uses(cs[..i], cs[i].addr) {
      var g :| 0 <= g < i && cs[..i][g].addr == cs[i].addr;
      var f := Unflagged(lists, st.live, redundant, t, g);
      assert IsClause(st.live, Node(t, f));
      OnePerChain(tb, lists, st, cs[i].addr, Node(t, i), Node(t, f));
    }
  }

  /** The chains without the entries of `t` for its first `i` clauses. */
  function LeftChains(chains: map<Addr, seq<Entry>>, t: TaskId, cs: seq<Clause>, i: nat): map<Addr, seq<Entry>>
    requires i <= |cs|
  {
    map a | a in chains && !(Uses(cs[..i], a) && Without(chains[a], t) == []) ::
      if Uses(cs[..i], a) then Without(chains[a], t) else chains[a]
  }

  lemma LeftStep(chains: map<Addr, seq<Entry>>, t: TaskId, cs: seq<Clause>, i: nat)
    requires i < |cs|
    ensures var a, now, next := cs[i].addr, LeftChains(chains, t, cs, i), LeftChains(chains, t, cs, i + 1);
      next == if Uses(cs[..i], a) || a !in now then now
              else if Without(now[a], t) == [] then now - {a} else now[a := Without(now[a], t)]
  {
    assert cs[..i + 1] == cs[..i] + [cs[i]];
    forall b ensures Uses(cs[..i + 1], b) <==> Uses(cs[..i], b) || b == cs[i].addr {
      UsesAppend(cs[..i], cs[i], b);
    }
  }

  lemma LeftAll(st: State, t: TaskId)
    requires ChainsOk(st) && t in st.live
    ensures LeftChains(st.chains, t, st.live[t], |st.live[t]|) == Finish(st, t).chains
  {
    var cs := st.live[t];
    assert cs[..|cs|] == cs;
    forall a | a in st.chains && !Uses(cs, a) ensures st.chains[a] != [] && Without(st.chains[a], t) == st.chains[a] {
      assert ChainMembers(st.live, a, Chain(st, a));
      WithoutAbsent(st.chains[a], t);
    }
  }

  lemma {:induction false} WithoutNone(ch: seq<Entry>, t: TaskId)
    ensures forall i :: 0 <= i < |Without(ch, t)| ==> Without(ch, t)[i].task != t
  {
    if ch != [] {
      WithoutNone(ch[1..], t);
    }
  }

  /** The chains of addresses that no clause in `cs` names are as before. */
  ghost predicate Untouched(lists: Lists, left: Lists, cs: seq<Clause>) {
    forall a :: a in lists && !Uses(cs, a) ==> a in left && left[a] == lists[a]
  }

  lemma RemoveMembers(s: seq<Node>, p: nat, n: Node)
    requires Distinct(s) && p < |s|
    ensures n in RemoveAt(s, p) <==> n in s && n != s[p]
  {
    if n in s && n != s[p] {
      var i :| 0 <= i < |s| && s[i] == n;
      assert RemoveAt(s, p)[if i < p then i else i - 1] == n;
    }
  }

  /** `lists` without its entry `p` in the chain of `a`. */
  function Shorter(lists: Lists, a: Addr, p: nat): Lists
    requires a in lists && p < |lists[a]|
  {
    if |lists[a]| == 1 then lists - {a} else lists[a := RemoveAt(lists[a], p)]
  }

  lemma ShorterStays(tb: Table, was: Lists, lists: Lists, chains: map<Addr, seq<Entry>>, t: TaskId, a: Addr, p: nat)
    requires Stays(was, lists, t) && Spells(tb, lists, chains) && a in lists && p < |lists[a]| && lists[a][p].task == t
    ensures Stays(was, Shorter(lists, a, p), t)
  {
    var left := Shorter(lists, a, p);
    assert ListOk(tb, a, lists[a], chains[a]);
    forall b, n
      ensures In(left, b, n) ==> In(lists, b, n)
      ensures In(lists, b, n) && n.task != t ==> In(left, b, n)
    {
      if b == a { RemoveMembers(lists[a], p, n); }
    }
  }

  lemma ShorterUntouched(was: Lists, lists: Lists, cs: seq<Clause>, i: nat, p: nat)
    requires i < |cs| && Untouched(was, lists, cs[..i]) && cs[i].addr in lists && p < |lists[cs[i].addr]|
    ensures Untouched(was, Shorter(lists, cs[i].addr, p), cs[..i + 1])
  {
    forall b | b in was && !Uses(cs[..i + 1], b)
      ensures !Uses(cs[..i], b) && b != cs[i].addr
    {
      assert cs[..i + 1] == cs[..i] + [cs[i]];
      UsesAppend(cs[..i], cs[i], b);
    }
  }

  lemma SkipUntouched(was: Lists, lists: Lists, cs: seq<Clause>, i: nat)
    requires i < |cs| && Untouched(was, lists, cs[..i])
    ensures Untouched(was, lists, cs[..i + 1])
  {
    forall b | b in was && !Uses(cs[..i + 1], b)
      ensures !Uses(cs[..i], b)
    {
      assert cs[..i + 1] == cs[..i] + [cs[i]];
      UsesAppend(cs[..i], cs[i], b);
    }
  }

  /** Taking out the one entry of `t` leaves the chain without `t`. */
  lemma LeaveOne(tb: Table, lists: Lists, chains: map<Addr, seq<Entry>>, a: Addr, p: nat, t: TaskId)
    requires Spells(tb, lists, chains) && a in lists && p < |lists[a]| && lists[a][p].task == t
    requires forall i, j :: 0 <= i < j < |chains[a]| ==> chains[a][i].task != chains[a][j].task
    ensures var rest := Without(chains[a], t);
      Spells(Leave(tb, a, lists[a][p]), Shorter(lists, a, p), if rest == [] then chains - {a} else chains[a := rest])
    ensures lists[a][p] !in tb.links.prev ==> tb.slot[a] == lists[a][p]
  {
    assert ListOk(tb, a, lists[a], chains[a]);
    LeaveSpells(tb, lists, chains, a, p);
    WithoutAt(chains[a], t, p);
    assert RemoveAt(chains[a], p) == Without(chains[a], t);
  }

  /** When all clauses of `t` are done, none of its entries is left. */
  lemma NoneLeft(tb: Table, left: Lists, chains: map<Addr, seq<Entry>>, was: map<Addr, seq<Entry>>, t: TaskId)
    requires Spells(tb, left, chains)
    requires forall a :: a in chains ==> a in was && chains[a] == Without(was[a], t)
    ensures forall a, n :: In(left, a, n) ==> n.task != t
  {
    forall a, n | In(left, a, n) ensures n.task != t {
      assert ListOk(tb, a, left[a], chains[a]);
      WithoutNone(was[a], t);
      var i :| 0 <= i < |left[a]| && left[a][i] == n;
      assert chains[a][i].task == n.task;
    }
  }

  // ---------- The hash table of a parent ----------

  class DependHash {
    var slot: map<Addr, Node>
    var links: Dll<Node>
    var ents: map<Node, Entry>
    var redundant: set<Node>
    /** What the pointers stand for. */
    ghost var chains: map<Addr, seq<Entry>>
    ghost var lists: Lists

    function Pointers(): Table
      reads this
    {
      Table(slot, links, ents)
    }

    ghost predicate Valid(live: Live)
      reads this
    {
      Spells(Pointers(), lists, chains) && Placed(lists, live, redundant)
    }

    /** The entry `x` for the next clause of its task has its fields but is not in a chain. */
    ghost predicate Pending(live: Live, c: Clause, x: Node)
      reads this
    {
      && Valid(live) && x.task in live && x == Node(x.task, |live[x.task]|) && Outside(lists, x)
      && IsBlank(Pointers(), x) && ents[x] == Entry(x.task, c.isIn, false)
    }

    constructor ()
      ensures Valid(map[]) && chains == map[]
    {
      slot, links, ents, redundant := map[], Dll(map[], map[]), map[], {};
      chains, lists := map[], map[];
    }

    method NewEntry(x: Node, c: Clause, ghost live: Live)
      requires Valid(live) && x.task in live && x.clause == |live[x.task]|
      modifies this`links, this`ents
      ensures Pending(live, c, x)
    {
      NewOutside(lists, live, redundant, x.task);
      BlankSpells(Pointers(), lists, chains, x, c.isIn);
      links := Dll(links.next - {x}, links.prev - {x});
      ents := ents[x := Entry(x.task, c.isIn, false)];
    }

    /** Does the chain of `a` begin with an entry of `t`? */
    method HeadIs(a: Addr, t: TaskId, ghost live: Live) returns (yes: bool)
      requires Valid(live)
      ensures yes <==> a in chains && chains[a] != [] && chains[a][0].task == t
    {
      assert a in slot ==> ListOk(Pointers(), a, lists[a], chains[a]);
      yes := a in slot && ents[slot[a]].task == t;
    }

    /** An earlier clause of the task names the address: the entry stays out of the chain. */
    method Flag(x: Node, c: Clause, ghost live: Live)
      requires Pending(live, c, x) && c.addr in chains && chains[c.addr] != [] && chains[c.addr][0].task == x.task
      modifies this`redundant
      ensures Valid(Grow(live, x.task, c))
    {
      assert ListOk(Pointers(), c.addr, lists[c.addr], chains[c.addr]);
      FlaggedPlaced(lists, live, redundant, x.task, c);
      redundant := redundant + {x};
    }

    /** The pointer assignments that follow the scan. */
    method LinkEntry(a: Addr, x: Node, isIn: bool, out: Ptr, last: Ptr)
      requires out != Null ==> out.node in ents && last != Null
      modifies this`slot, this`links, this`ents
      ensures Pointers() == Link(old(Pointers()), a, x, isIn, out, last)
    {
      if a in slot {
        links := Dll(links.next[x := slot[a]], links.prev[slot[a] := x]);
      }
      slot := slot[a := x];
      if !isIn && out != Null {
        if out != last {
          links := InsertAfter(Unlink(links, out.node), last.node, out.node);
        }
        ents := ents[out.node := ents[out.node].(redundantOut := true)];
      }
    }

    /** The new entry becomes the head of its chain, and a previous out entry goes behind the last
        scanned one. */
    method LinkClause(x: Node, c: Clause, out: Ptr, last: Ptr, ghost live: Live, ghost ch: seq<Entry>)
      requires Pending(live, c, x) && ch == (if c.addr in chains then chains[c.addr] else [])
      requires ScanGives(ListAt(lists, c.addr), ch, Scanned(ch), LastOut(ch, Scanned(ch)), out, last)
      modifies this
      ensures Valid(Grow(live, x.task, c)) && chains == old(chains)[c.addr := Relink(ch, x.task, c.isIn)]
    {
      ghost var s, k := ListAt(lists, c.addr), Scanned(ch);
      ghost var j := LastOut(ch, k);
      LinkSpells(Pointers(), lists, chains, c.addr, x, s, ch, c.isIn, k, j, out, last);
      OutHasEntry(Pointers(), lists, chains, c.addr, s, ch, k, j, out, last);
      NewLinkPlaced(lists, live, redundant, x.task, c, j, k);
      LinkEntry(c.addr, x, c.isIn, out, last);
      redundant := redundant - {x};
      lists, chains := lists[c.addr := LinkedNodes(s, x, c.isIn, j, k)], chains[c.addr := Relink(ch, x.task, c.isIn)];
    }

    /** One entry leaves its chain; the head gives its slot on or clears it. */
    method LeaveChain(a: Addr, x: Node, ghost lists': Lists, ghost chains': map<Addr, seq<Entry>>)
      requires a in slot && (x !in links.prev ==> slot[a] == x)
      requires x in links.next ==> links.next[x] != x
      modifies this`slot, this`links, this`lists, this`chains
      ensures Pointers() == Leave(old(Pointers()), a, x) && lists == lists' && chains == chains'
    {
      var next, prev := links.next, links.prev;
      if x in next {
        prev := if x in prev then prev[next[x] := prev[x]] else prev - {next[x]};
      }
      if x in prev {
        next := if x in next then next[prev[x] := next[x]] else next - {prev[x]};
      } else {
        slot := if x in next then slot[a := next[x]] else slot - {a};
      }
      links, lists, chains := Dll(next, prev), lists', chains';
    }

    /** The entry of clause `i` of `t` leaves its chain unless it is flagged. */
    method LeaveClause(t: TaskId, i: nat, a: Addr, ghost st: State, ghost was: Lists)
      requires t in st.live && i < |st.live[t]| && a == st.live[t][i].addr
      requires Scene(st, was, redundant, t) && Leaving(st, was, Pointers(), lists, chains, t, i)
      modifies this`slot, this`links, this`chains, this`lists
      ensures Leaving(st, was, Pointers(), lists, chains, t, i + 1)
    {
      if Node(t, i) !in redundant {
        ghost var lists', chains' := LeavingOne(st, was, redundant, Pointers(), lists, chains, t, i, a);
        LeaveChain(a, Node(t, i), lists', chains');
      } else {
        LeavingSkip(st, was, redundant, Pointers(), lists, chains, t, i);
      }
    }

    method LeaveClauses(t: TaskId, cs: seq<Clause>, ghost st: State, ghost was: Lists)
      requires t in st.live && st.live[t] == cs
      requires Scene(st, was, redundant, t) && Leaving(st, was, Pointers(), lists, chains, t, 0)
      modifies this`slot, this`links, this`chains, this`lists
      ensures Leaving(st, was, Pointers(), lists, chains, t, |cs|)
    {
      var i := 0;
      while i < |cs|
        invariant 0 <= i <= |cs| && Leaving(st, was, Pointers(), lists, chains, t, i)
      {
        LeaveClause(t, i, cs[i].addr, st, was);
        i := i + 1;
      }
    }

    /** gomp_task_run_post_handle_depend_hash: every entry that is not flagged leaves its chain. */
    method LeaveChains(t: TaskId, cs: seq<Clause>, ghost st: State)
      requires Valid(st.live) && ChainsOk(st) && st.chains == chains && t in st.live && st.live[t] == cs
      modifies this`slot, this`links, this`chains, this`lists
      ensures chains == Finish(st, t).chains && Valid(st.live - {t})
    {
      ghost var was := lists;
      LeavingStarts(Pointers(), lists, st, redundant, t);
      LeaveClauses(t, cs, st, was);
      LeavingEnds(st, was, redundant, Pointers(), lists, chains, t);
    }
  }

  // ---------- The engine ----------

  /** What the termination of `t` relies on. */
  ghost predicate Ready(st: State, t: TaskId) {
    && ChainsOk(st) && t in st.live && Increasing(DependersOf(st, t))
    && forall d :: d in DependersOf(st, t) ==> d in st.numDependees
  }

  class Engine {
    var nextId: nat
    var live: map<TaskId, seq<Clause>>
    const hash: DependHash
    var dependers: map<TaskId, seq<TaskId>>
    var numDependees: map<TaskId, int>
    var children: set<TaskId>
    var taskCount: int

    ghost function St(): State
      reads this, hash
    {
      State(nextId, live, hash.chains, dependers, numDependees, children, taskCount)
    }

    ghost predicate Valid()
      reads this, hash
    {
      hash.Valid(live) && forall t :: t in live ==> t < nextId
    }

    constructor ()
      ensures Valid() && St() == Empty && fresh(hash)
    {
      nextId, live := 0, map[];
      hash := new DependHash();
      dependers, numDependees, children, taskCount := map[], map[], {}, 0;
    }

    method AddDepender(s: TaskId, t: TaskId)
      requires t in numDependees
      modifies this`dependers, this`numDependees
      ensures St() == AddEdge(old(St()), s, t)
    {
      if s !in dependers {
        dependers := dependers[s := [t]];
      } else if dependers[s] != [] && dependers[s][|dependers[s]| - 1] == t {
        return;
      } else {
        dependers := dependers[s := dependers[s] + [t]];
      }
      assert DependersOf(old(St()), s) + [t] == dependers[s];
      numDependees := numDependees[t := numDependees[t] + 1];
    }

    /** The scan loop along the next pointers; `out` is the last out entry and `last` the last entry
        before the first redundant_out one. */
    method ScanChain(t: TaskId, isIn: bool, a: Addr, ghost s: seq<Node>, ghost ch: seq<Entry>) returns (out: Ptr, last: Ptr)
      requires t in numDependees && a in hash.slot && ListOk(hash.Pointers(), a, s, ch)
      modifies this`dependers, this`numDependees
      ensures St() == Scan(old(St()), t, isIn, ch, 0, Scanned(ch))
      ensures ScanGives(s, ch, Scanned(ch), LastOut(ch, Scanned(ch)), out, last)
    {
      ghost var n: nat := 0;
      var ent := At(hash.slot[a]);
      out, last := Null, Null;
      while ent != Null && !hash.ents[ent.node].redundantOut
        invariant n <= Scanned(ch) && t in numDependees && ent == NodeAt(s, n) && last == NodeAt(s, n - 1)
        invariant ent != Null ==> ent.node in hash.ents && hash.ents[ent.node] == ch[n] && ch[n].task == ent.node.task
        invariant Scan(St(), t, isIn, ch, n, Scanned(ch)) == Scan(old(St()), t, isIn, ch, 0, Scanned(ch))
        invariant out == if LastOut(ch, n) < n then NodeAt(s, LastOut(ch, n)) else Null
        decreases |s| - n
      {
        last := ent;
        var e := hash.ents[ent.node];
        if !(isIn && e.isIn) {
          if !e.isIn {
            out := ent;
          }
          AddDepender(e.task, t);
        }
        Neighbours(hash.links, s, n);
        ent := if ent.node in hash.links.next then At(hash.links.next[ent.node]) else Null;
        n := n + 1;
      }
    }

    /** Scans the chain of the address, if there is one. */
    method ScanSlot(t: TaskId, c: Clause, ghost lists: Lists, ghost ch: seq<Entry>) returns (out: Ptr, last: Ptr)
      requires t in numDependees && Spells(hash.Pointers(), lists, hash.chains) && ch == Chain(St(), c.addr)
      modifies this`dependers, this`numDependees
      ensures St() == Scan(old(St()), t, c.isIn, ch, 0, Scanned(ch))
      ensures ScanGives(ListAt(lists, c.addr), ch, Scanned(ch), LastOut(ch, Scanned(ch)), out, last)
    {
      if c.addr in hash.slot {
        assert ListOk(hash.Pointers(), c.addr, lists[c.addr], hash.chains[c.addr]);
        out, last := ScanChain(t, c.isIn, c.addr, lists[c.addr], ch);
      } else {
        out, last := Null, Null;
      }
    }

    method RegisterClause(t: TaskId, c: Clause)
      requires Valid() && t in numDependees && t in live
      modifies this, hash
      ensures Valid() && St() == AddClause(old(St()), t, c)
    {
      ghost var was, ch := live, Chain(St(), c.addr);
      var x := Node(t, |live[t]|);
      hash.NewEntry(x, c, was);
      live := live[t := live[t] + [c]];
      var again := hash.HeadIs(c.addr, t, was);
      if again {
        hash.Flag(x, c, was);
      } else {
        ScanFrame(St(), t, c.isIn, ch, 0, Scanned(ch));
        var out, last := ScanSlot(t, c, hash.lists, ch);
        hash.LinkClause(x, c, out, last, was, ch);
      }
    }

    method HandleDepend(t: TaskId, cs: seq<Clause>)
      requires Valid() && t in numDependees && t in live
      modifies this, hash
      ensures Valid() && St() == AddClauses(old(St()), t, cs, 0)
    {
      var i := 0;
      while i < |cs|
        invariant 0 <= i <= |cs| && t in numDependees && t in live && Valid()
        invariant AddClauses(St(), t, cs, i) == AddClauses(old(St()), t, cs, 0)
      {
        ghost var before := St();
        RegisterClause(t, cs[i]);
        AddClauseChain(before, t, cs[i]);
        ScanFrame(before.(live := Grow(before.live, t, cs[i])), t, cs[i].isIn,
                  Chain(before, cs[i].addr), 0, Scanned(Chain(before, cs[i].addr)));
        i := i + 1;
      }
    }

    method BeginTask() returns (t: TaskId)
      requires Valid()
      modifies this`nextId, this`live, this`numDependees
      ensures Valid() && St() == Begin(old(St())) && t == old(nextId)
    {
      t := nextId;
      NewTaskPlaced(hash.lists, live, hash.redundant, t);
      nextId := nextId + 1;
      live, numDependees := live[t := []], numDependees[t := 0];
    }

    /** The deferred branch of GOMP_task. */
    method CreateTask(cs: seq<Clause>) returns (t: TaskId)
      requires Valid()
      modifies this, hash
      ensures Valid() && St() == Create(old(St()), cs) && t == old(nextId)
      ensures live == old(live)[t := cs]
    {
      CreateLive(St(), cs);
      t := BeginTask();
      AddClausesFrame(St(), t, cs, 0);
      HandleDepend(t, cs);
      PublishTask(t);
    }

    /** A task that nothing holds back is queued and counted. */
    method PublishTask(t: TaskId)
      requires Valid() && t in numDependees
      modifies this`children, this`taskCount
      ensures Valid() && St() == Publish(old(St()), t)
    {
      if numDependees[t] == 0 {
        children := children + {t};
        taskCount := taskCount + 1;
      }
    }

    method CountDependee(d: TaskId)
      requires d in numDependees
      modifies this`numDependees, this`children, this`taskCount
      ensures St() == CountDown(old(St()), d)
    {
      numDependees := numDependees[d := numDependees[d] - 1];
      if numDependees[d] == 0 {
        children := children + {d};
        taskCount := taskCount + 1;
      }
    }

    /** gomp_task_run_post_handle_dependers: count down every depender and queue the released ones. */
    method ReleaseDependers(t: TaskId)
      requires Increasing(DependersOf(St(), t))
      requires forall d :: d in DependersOf(St(), t) ==> d in numDependees
      modifies this`numDependees, this`children, this`taskCount
      ensures St() == Release(old(St()), DependersOf(old(St()), t), |DependersOf(old(St()), t)|)
    {
      var v := if t in dependers then dependers[t] else [];
      ReleaseAll(St(), t);
      var i := 0;
      while i < |v|
        invariant 0 <= i <= |v|
        invariant St() == Release(old(St()), v, i)
      {
        var d := v[i];
        assert d in DependersOf(old(St()), t);
        ReleaseStep(old(St()), v, i);
        CountDependee(d);
        i := i + 1;
      }
    }

    /** gomp_task_run_post_handle_depend: leave the chains, then release the dependers. */
    method HandleDependPost(t: TaskId)
      requires Valid() && Ready(St(), t)
      modifies this`numDependees, this`children, this`taskCount, hash
      ensures var v := DependersOf(old(St()), t);
        St() == Release(old(St()), v, |v|).(chains := Finish(old(St()), t).chains)
      ensures hash.Valid(live - {t})
    {
      hash.LeaveChains(t, live[t], St());
      ReleaseDependers(t);
    }

    /** gomp_terminate_task_pre for a child that has run to completion. */
    method TerminateTask(t: TaskId)
      requires Valid() && Ready(St(), t)
      modifies this, hash
      ensures Valid() && St() == Finish(old(St()), t)
    {
      ghost var st := St();
      HandleDependPost(t);
      FinishIs(st, t);
      DropTask(t);
    }

    /** The task leaves its queues and is gone. */
    method DropTask(t: TaskId)
      requires t in live && hash.Valid(live - {t}) && forall x :: x in live ==> x < nextId
      modifies this
      ensures Valid() && St() == Forgotten(old(St()), t)
    {
      children := children - {t};
      taskCount := taskCount - 1;
      live, dependers, numDependees := live - {t}, dependers - {t}, numDependees - {t};
    }
  }

  /** The queues, vectors and counters without `t`. */
  function Forgotten(st: State, t: TaskId): State {
    st.(children := st.children - {t}, taskCount := st.taskCount - 1,
        live := st.live - {t}, dependers := st.dependers - {t}, numDependees := st.numDependees - {t})
  }

  lemma FinishIs(st: State, t: TaskId)
    ensures var v := DependersOf(st, t);
      Forgotten(Release(st, v, |v|).(chains := Finish(st, t).chains), t) == Finish(st, t)
  {
    ReleaseAll(st, t);
  }

  lemma OutHasEntry(tb: Table, lists: Lists, chains: map<Addr, seq<Entry>>, a: Addr, s: seq<Node>, ch: seq<Entry>,
                    k: nat, j: nat, out: Ptr, last: Ptr)
    requires Spells(tb, lists, chains) && s == ListAt(lists, a) && ch == (if a in chains then chains[a] else [])
    requires ScanGives(s, ch, k, j, out, last)
    ensures out != Null ==> out.node in tb.ents && last != Null
  {
    assert out != Null ==> ListOk(tb, a, s, ch);
  }

  lemma NewLinkPlaced(lists: Lists, live: Live, redundant: set<Node>, t: TaskId, c: Clause, j: nat, k: nat)
    requires Placed(lists, live, redundant) && t in live && k <= |ListAt(lists, c.addr)|
    ensures var s, x := ListAt(lists, c.addr), Node(t, |live[t]|);
      Placed(lists[c.addr := LinkedNodes(s, x, c.isIn, j, k)], Grow(live, t, c), redundant - {x})
  {
    var s, x := ListAt(lists, c.addr), Node(t, |live[t]|);
    forall n ensures n in LinkedNodes(s, x, c.isIn, j, k) <==> n == x || n in s {
      LinkedMembers(s, x, c.isIn, j, k, n);
    }
    LinkedPlaced(lists, live, redundant, t, c, LinkedNodes(s, x, c.isIn, j, k));
  }

  /** What holds before `t` leaves its chains: its unflagged clauses are those that first name their
      addresses, they are in the chains, and no chain has two entries of one task. */
  ghost predicate Scene(st: State, was: Lists, redundant: set<Node>, t: TaskId)
    requires t in st.live
  {
    && (forall i :: 0 <= i < |st.live[t]| ==> FirstOrFlagged(st.live[t], was, redundant, t, i))
    && (forall a :: a in st.chains ==> OneEach(st.chains[a]))
    && st.chains.Keys == was.Keys
  }

  predicate FirstOrFlagged(cs: seq<Clause>, was: Lists, redundant: set<Node>, t: TaskId, i: nat)
    requires i < |cs|
  {
    if Node(t, i) in redundant then Uses(cs[..i], cs[i].addr)
    else !Uses(cs[..i], cs[i].addr) && In(was, cs[i].addr, Node(t, i))
  }

  predicate OneEach(ch: seq<Entry>) {
    forall i, j :: 0 <= i < j < |ch| ==> ch[i].task != ch[j].task
  }

  lemma SceneHolds(tb: Table, lists: Lists, st: State, redundant: set<Node>, t: TaskId)
    requires Spells(tb, lists, st.chains) && ChainsOk(st) && t in st.live && AllClauses(lists, st.live, redundant)
    ensures Scene(st, lists, redundant, t)
  {
    forall i | 0 <= i < |st.live[t]| ensures FirstOrFlagged(st.live[t], lists, redundant, t, i) {
      FlaggedIff(tb, lists, st, redundant, t, i);
      assert IsClause(st.live, Node(t, i));
    }
    forall a | a in st.chains ensures OneEach(st.chains[a]) {
      assert ChainMembers(st.live, a, Chain(st, a));
    }
  }

  /** The clauses of `t` before number `i` are out of the chains. */
  ghost predicate Leaving(st: State, was: Lists, tb: Table, lists: Lists, chains: map<Addr, seq<Entry>>, t: TaskId, i: nat)
    requires t in st.live && i <= |st.live[t]|
  {
    && Spells(tb, lists, chains) && chains == LeftChains(st.chains, t, st.live[t], i)
    && Stays(was, lists, t) && Untouched(was, lists, st.live[t][..i])
  }

  lemma LeavingStarts(tb: Table, lists: Lists, st: State, redundant: set<Node>, t: TaskId)
    requires Spells(tb, lists, st.chains) && ChainsOk(st) && t in st.live && AllClauses(lists, st.live, redundant)
    ensures Scene(st, lists, redundant, t) && Leaving(st, lists, tb, lists, st.chains, t, 0)
  {
    SceneHolds(tb, lists, st, redundant, t);
    assert LeftChains(st.chains, t, st.live[t], 0) == st.chains;
  }

  lemma LeavingSkip(st: State, was: Lists, redundant: set<Node>, tb: Table, lists: Lists,
                    chains: map<Addr, seq<Entry>>, t: TaskId, i: nat)
    requires t in st.live && i < |st.live[t]| && Scene(st, was, redundant, t) && Leaving(st, was, tb, lists, chains, t, i)
    requires Node(t, i) in redundant
    ensures Leaving(st, was, tb, lists, chains, t, i + 1)
  {
    assert FirstOrFlagged(st.live[t], was, redundant, t, i);
    LeftStep(st.chains, t, st.live[t], i);
    SkipUntouched(was, lists, st.live[t], i);
  }

  /** An unflagged clause is still in its chain. */
  lemma StillThere(st: State, was: Lists, redundant: set<Node>, lists: Lists, t: TaskId, i: nat, a: Addr) returns (p: nat)
    requires t in st.live && i < |st.live[t]| && a == st.live[t][i].addr && Scene(st, was, redundant, t)
    requires Node(t, i) !in redundant && Untouched(was, lists, st.live[t][..i])
    ensures a in lists && p < |lists[a]| && lists[a][p] == Node(t, i)
    ensures !Uses(st.live[t][..i], a) && a in st.chains && OneEach(st.chains[a])
  {
    assert FirstOrFlagged(st.live[t], was, redundant, t, i);
    p :| 0 <= p < |lists[a]| && lists[a][p] == Node(t, i);
  }

  lemma LeavingChains(st: State, tb: Table, lists: Lists, chains: map<Addr, seq<Entry>>, t: TaskId, i: nat, a: Addr, p: nat)
    requires t in st.live && i < |st.live[t]| && a == st.live[t][i].addr
    requires Spells(tb, lists, chains) && chains == LeftChains(st.chains, t, st.live[t], i)
    requires a in lists && p < |lists[a]| && lists[a][p] == Node(t, i)
    requires !Uses(st.live[t][..i], a) && a in st.chains && OneEach(st.chains[a])
    ensures Spells(Leave(tb, a, Node(t, i)), Shorter(lists, a, p), LeftChains(st.chains, t, st.live[t], i + 1))
    ensures a in tb.slot && (Node(t, i) !in tb.links.prev ==> tb.slot[a] == Node(t, i))
  {
    assert chains[a] == st.chains[a];
    LeaveOne(tb, lists, chains, a, p, t);
    LeftStep(st.chains, t, st.live[t], i);
  }

  lemma NotOwnNext(tb: Table, lists: Lists, chains: map<Addr, seq<Entry>>, a: Addr, p: nat)
    requires Spells(tb, lists, chains) && a in lists && p < |lists[a]|
    ensures lists[a][p] in tb.links.next ==> tb.links.next[lists[a][p]] != lists[a][p]
  {
    assert ListOk(tb, a, lists[a], chains[a]);
    Neighbours(tb.links, lists[a], p);
  }

  lemma LeavingOne(st: State, was: Lists, redundant: set<Node>, tb: Table, lists: Lists,
                   chains: map<Addr, seq<Entry>>, t: TaskId, i: nat, a: Addr)
      returns (lists': Lists, chains': map<Addr, seq<Entry>>)
    requires t in st.live && i < |st.live[t]| && a == st.live[t][i].addr
    requires Scene(st, was, redundant, t) && Leaving(st, was, tb, lists, chains, t, i) && Node(t, i) !in redundant
    ensures Leaving(st, was, Leave(tb, a, Node(t, i)), lists', chains', t, i + 1)
    ensures a in tb.slot && (Node(t, i) !in tb.links.prev ==> tb.slot[a] == Node(t, i))
    ensures Node(t, i) in tb.links.next ==> tb.links.next[Node(t, i)] != Node(t, i)
  {
    var p := StillThere(st, was, redundant, lists, t, i, a);
    lists', chains' := Shorter(lists, a, p), LeftChains(st.chains, t, st.live[t], i + 1);
    NotOwnNext(tb, lists, chains, a, p);
    LeavingChains(st, tb, lists, chains, t, i, a, p);
    ShorterStays(tb, was, lists, chains, t, a, p);
    ShorterUntouched(was, lists, st.live[t], i, p);
  }

  lemma LeavingEnds(st: State, was: Lists, redundant: set<Node>, tb: Table, lists: Lists,
                    chains: map<Addr, seq<Entry>>, t: TaskId)
    requires t in st.live && Leaving(st, was, tb, lists, chains, t, |st.live[t]|) && Placed(was, st.live, redundant)
    requires ChainsOk(st)
    ensures chains == Finish(st, t).chains && Placed(lists, st.live - {t}, redundant)
  {
    LeftAll(st, t);
    NoneLeft(tb, lists, chains, st.chains, t);
    GonePlaced(was, lists, st.live, redundant, t);
  }

  /** A new task has no clauses yet. */
  lemma NewTaskPlaced(lists: Lists, live: Live, redundant: set<Node>, t: TaskId)
    requires Placed(lists, live, redundant) && t !in live
    ensures Placed(lists, live[t := []], redundant)
  {
    var grown := live[t := []];
    forall a, n | In(lists, a, n)
      ensures IsClause(grown, n) && AddrOf(grown, n) == a && n !in redundant
    {
      assert IsClause(live, n);
    }
    forall n | IsClause(grown, n)
      ensures if n in redundant then Uses(grown[n.task][..n.clause], AddrOf(grown, n)) else In(lists, AddrOf(grown, n), n)
    {
      assert IsClause(live, n) && AddrOf(live, n) == AddrOf(grown, n);
    }
  }

  /** One dependee fewer for `d`; queue it when that was the last. */
  function CountDown(st: State, d: TaskId): State {
    if d !in st.numDependees then st
    else
      var num := st.numDependees[d := st.numDependees[d] - 1];
      if num[d] == 0 then st.(numDependees := num, children := st.children + {d}, taskCount := st.taskCount + 1)
      else st.(numDependees := num)
  }

  function CountsAfter(num: map<TaskId, int>, v: seq<TaskId>, i: nat): map<TaskId, int>
    requires i <= |v|
  {
    map x | x in num :: if x in v[..i] then num[x] - 1 else num[x]
  }

  /** The first `i` of the dependers `v` counted down. */
  function Release(st: State, v: seq<TaskId>, i: nat): State
    requires i <= |v|
  {
    var out := OneLeft(st.numDependees, v[..i]);
    st.(numDependees := CountsAfter(st.numDependees, v, i),
        children := st.children + out, taskCount := st.taskCount + |out|)
  }

  lemma CountsStep(num: map<TaskId, int>, v: seq<TaskId>, i: nat)
    requires i < |v| && Increasing(v) && v[i] in num
    ensures v[i] in CountsAfter(num, v, i) && CountsAfter(num, v, i)[v[i]] == num[v[i]]
    ensures CountsAfter(num, v, i + 1) == CountsAfter(num, v, i)[v[i] := num[v[i]] - 1]
  {
    assert v[..i + 1] == v[..i] + [v[i]] && v[i] !in v[..i];
  }

  lemma OneLeftStep(num: map<TaskId, int>, v: seq<TaskId>, i: nat)
    requires i < |v| && Increasing(v) && v[i] in num
    ensures OneLeft(num, v[..i + 1]) == OneLeft(num, v[..i]) + if num[v[i]] == 1 then {v[i]} else {}
    ensures |OneLeft(num, v[..i + 1])| == |OneLeft(num, v[..i])| + if num[v[i]] == 1 then 1 else 0
  {
    assert v[..i + 1] == v[..i] + [v[i]] && v[i] !in v[..i];
    assert OneLeft(num, v[..i + 1]) == OneLeft(num, v[..i]) + if num[v[i]] == 1 then {v[i]} else {};
  }

  lemma ReleaseStep(st: State, v: seq<TaskId>, i: nat)
    requires i < |v| && Increasing(v) && v[i] in st.numDependees
    ensures CountDown(Release(st, v, i), v[i]) == Release(st, v, i + 1)
  {
    CountsStep(st.numDependees, v, i);
    OneLeftStep(st.numDependees, v, i);
    var p, r := Release(st, v, i), Release(st, v, i + 1);
    assert r.children == p.children + if st.numDependees[v[i]] == 1 then {v[i]} else {};
    assert r == p.(numDependees := r.numDependees, children := r.children, taskCount := r.taskCount);
  }

  lemma ReleaseAll(st: State, t: TaskId)
    ensures var v := DependersOf(st, t);
      Release(st, v, 0) == st &&
      var r := Release(st, v, |v|);
      && r.numDependees - {t} == Finish(st, t).numDependees
      && r.children - {t} == Finish(st, t).children && r.taskCount - 1 == Finish(st, t).taskCount
  {
    var v := DependersOf(st, t);
    assert v[..|v|] == v && OneLeft(st.numDependees, v[..0]) == {};
  }

  /** The invariant gives TerminateTask what it asks for. */
  lemma Terminable(st: State, t: TaskId)
    requires Inv(st) && t in st.live
    ensures Ready(st, t)
  {
    forall d | d in DependersOf(st, t) ensures d in st.numDependees { assert Edge(st, t, d); }
  }
}
