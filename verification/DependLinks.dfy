/** The entries of the depend arrays as the hash table of the parent holds them (task.c): one slot per
    address with the head of a chain that is doubly linked through the next and prev fields.  The
    functions are the assignments of the source; `Spells` says which chains the pointers stand for. */
module DependLinks {
  import opened Depend
  import opened Links

  /** The address of one element of the depend array of a task. */
  datatype Node = Node(task: TaskId, clause: nat)

  datatype Ptr = Null | At(node: Node)

  datatype Table = Table(slot: map<Addr, Node>, links: Dll<Node>, ents: map<Node, Entry>)

  predicate EntriesAre(ents: map<Node, Entry>, s: seq<Node>, ch: seq<Entry>) {
    && |s| == |ch|
    && forall i :: 0 <= i < |s| ==> s[i] in ents && ents[s[i]] == ch[i] && ch[i].task == s[i].task
  }

  /** The slot of `a` leads to the nodes `s`, which hold the chain `ch`. */
  predicate ListOk(tb: Table, a: Addr, s: seq<Node>, ch: seq<Entry>) {
    && s != [] && a in tb.slot && tb.slot[a] == s[0]
    && Distinct(s) && Chained(tb.links, s) && EntriesAre(tb.ents, s, ch)
  }

  predicate Apart(s: seq<Node>, r: seq<Node>) {
    forall i, j :: 0 <= i < |s| && 0 <= j < |r| ==> s[i] != r[j]
  }

  /** The pointers stand for `chains`; `lists` names the nodes. */
  ghost predicate Spells(tb: Table, lists: map<Addr, seq<Node>>, chains: map<Addr, seq<Entry>>) {
    && lists.Keys == tb.slot.Keys == chains.Keys
    && (forall a {:trigger ListOk(tb, a, lists[a], chains[a])} :: a in lists ==> ListOk(tb, a, lists[a], chains[a]))
    && (forall a, b {:trigger Apart(lists[a], lists[b])} :: a in lists && b in lists && a != b ==> Apart(lists[a], lists[b]))
  }

  function ListAt(lists: map<Addr, seq<Node>>, a: Addr): seq<Node> {
    if a in lists then lists[a] else []
  }

  ghost predicate Outside(lists: map<Addr, seq<Node>>, x: Node) {
    forall a :: a in lists ==> x !in lists[a]
  }

  // ---------- Frames ----------

  predicate SameEnts(ents: map<Node, Entry>, ents': map<Node, Entry>, s: seq<Node>) {
    forall i :: 0 <= i < |s| && s[i] in ents ==> s[i] in ents' && ents'[s[i]] == ents[s[i]]
  }

  predicate SameAt(tb: Table, tb': Table, a: Addr, s: seq<Node>) {
    && SameOn(tb.links, tb'.links, s) && SameEnts(tb.ents, tb'.ents, s)
    && (a in tb.slot ==> a in tb'.slot && tb'.slot[a] == tb.slot[a])
  }

  lemma ListFrame(tb: Table, tb': Table, a: Addr, s: seq<Node>, ch: seq<Entry>)
    requires ListOk(tb, a, s, ch) && SameAt(tb, tb', a, s)
    ensures ListOk(tb', a, s, ch)
  {
    ChainedFrame(tb.links, tb'.links, s);
  }

  /** An operation on the chain of `a` that keeps away from all others. */
  ghost predicate OthersSame(tb: Table, tb': Table, lists: map<Addr, seq<Node>>, a: Addr) {
    forall b :: b in lists && b != a ==> SameAt(tb, tb', b, lists[b])
  }

  ghost predicate ApartFromOthers(lists: map<Addr, seq<Node>>, a: Addr, s: seq<Node>) {
    forall b :: b in lists && b != a ==> Apart(s, lists[b])
  }

  lemma Replaced(tb: Table, tb': Table, lists: map<Addr, seq<Node>>, chains: map<Addr, seq<Entry>>, a: Addr,
                 s: seq<Node>, ch: seq<Entry>)
    requires Spells(tb, lists, chains) && tb'.slot.Keys == tb.slot.Keys + {a}
    requires ListOk(tb', a, s, ch) && OthersSame(tb, tb', lists, a) && ApartFromOthers(lists, a, s)
    ensures Spells(tb', lists[a := s], chains[a := ch])
  {
    var lists', chains' := lists[a := s], chains[a := ch];
    forall b | b in lists' ensures ListOk(tb', b, lists'[b], chains'[b]) {
      if b != a { ListFrame(tb, tb', b, lists[b], chains[b]); }
    }
    forall b, c | b in lists' && c in lists' && b != c ensures Apart(lists'[b], lists'[c]) {
      assert b == a ==> Apart(s, lists[c]);
      assert c == a ==> Apart(s, lists[b]);
    }
  }

  lemma Dropped(tb: Table, tb': Table, lists: map<Addr, seq<Node>>, chains: map<Addr, seq<Entry>>, a: Addr)
    requires Spells(tb, lists, chains) && tb'.slot.Keys == tb.slot.Keys - {a} && OthersSame(tb, tb', lists, a)
    ensures Spells(tb', lists - {a}, chains - {a})
  {
    forall b | b in lists && b != a ensures ListOk(tb', b, lists[b], chains[b]) {
      ListFrame(tb, tb', b, lists[b], chains[b]);
    }
  }

  // ---------- A new entry ----------

  /** The fields of a new entry `x`, not yet in any chain. */
  function Blank(tb: Table, x: Node, isIn: bool): Table {
    tb.(links := Dll(tb.links.next - {x}, tb.links.prev - {x}), ents := tb.ents[x := Entry(x.task, isIn, false)])
  }

  lemma BlankSpells(tb: Table, lists: map<Addr, seq<Node>>, chains: map<Addr, seq<Entry>>, x: Node, isIn: bool)
    requires Spells(tb, lists, chains) && Outside(lists, x)
    ensures Spells(Blank(tb, x, isIn), lists, chains)
  {
    var tb' := Blank(tb, x, isIn);
    forall a | a in lists ensures ListOk(tb', a, lists[a], chains[a]) {
      assert forall i :: 0 <= i < |lists[a]| ==> lists[a][i] in lists[a];
      ListFrame(tb, tb', a, lists[a], chains[a]);
    }
  }

  /** The new entry becomes the head of the chain of `a`. */
  function PutFront(tb: Table, a: Addr, x: Node): Table {
    var links := if a in tb.slot then Dll(tb.links.next[x := tb.slot[a]], tb.links.prev[tb.slot[a] := x]) else tb.links;
    tb.(links := links, slot := tb.slot[a := x])
  }

  ghost predicate IsBlank(tb: Table, x: Node) {
    x !in tb.links.next && x !in tb.links.prev && x in tb.ents && tb.ents[x].task == x.task
  }

  lemma FrontChained(tb: Table, a: Addr, s: seq<Node>, ch: seq<Entry>, x: Node)
    requires IsBlank(tb, x) && x !in s && if a in tb.slot then ListOk(tb, a, s, ch) else s == [] && ch == []
    ensures ListOk(PutFront(tb, a, x), a, [x] + s, [tb.ents[x]] + ch)
  {
    var tb' := PutFront(tb, a, x);
    if a in tb.slot {
      InsertBeforeChained(tb.links, s, 0, x);
      assert InsertAt(s, 0, x) == [x] + s;
      assert tb.links.prev - {x} == tb.links.prev;
      assert tb'.links == InsertBefore(tb.links, s[0], x);
    } else {
      SingletonChained(tb.links, x);
      assert [x] + s == [x] && [tb.ents[x]] + ch == [tb.ents[x]];
    }
  }

  lemma PutFrontSpells(tb: Table, lists: map<Addr, seq<Node>>, chains: map<Addr, seq<Entry>>, a: Addr, x: Node)
    requires Spells(tb, lists, chains) && IsBlank(tb, x) && Outside(lists, x)
    ensures Spells(PutFront(tb, a, x), lists[a := [x] + ListAt(lists, a)],
                   chains[a := [tb.ents[x]] + if a in chains then chains[a] else []])
  {
    var tb', s, ch := PutFront(tb, a, x), ListAt(lists, a), if a in chains then chains[a] else [];
    FrontChained(tb, a, s, ch, x);
    forall b | b in lists && b != a ensures SameAt(tb, tb', b, lists[b]) && Apart([x] + s, lists[b]) {
      assert forall i :: 0 <= i < |lists[b]| ==> lists[b][i] in lists[b];
      assert a in lists ==> Apart(s, lists[b]);
    }
    Replaced(tb, tb', lists, chains, a, [x] + s, [tb.ents[x]] + ch);
  }

  // ---------- Moving the previous out entry ----------

  /** Element `j` moved to the end of the first `k` ones. */
  function Moved<T>(s: seq<T>, j: nat, k: nat): (r: seq<T>)
    requires j < k <= |s|
    ensures |r| == |s|
    ensures forall i :: 0 <= i < |r| ==> r[i] == s[if i < j || i >= k then i else if i == k - 1 then j else i + 1]
  {
    s[..j] + s[j + 1..k] + [s[j]] + s[k..]
  }

  /** out is unlinked and put behind last. */
  function MoveBehind(tb: Table, out: Node, last: Node): Table {
    tb.(links := InsertAfter(Unlink(tb.links, out), last, out))
  }

  lemma MoveChained(d: Dll<Node>, s: seq<Node>, j: nat, k: nat)
    requires Chained(d, s) && Distinct(s) && 0 < j < k - 1 && k <= |s|
    ensures Chained(InsertAfter(Unlink(d, s[j]), s[k - 1], s[j]), Moved(s, j, k)) && Distinct(Moved(s, j, k))
  {
    var r := RemoveAt(s, j);
    UnlinkChained(d, s, j);
    assert r[k - 2] == s[k - 1];
    assert s[j] !in r;
    InsertAfterChained(Unlink(d, s[j]), r, k - 2, s[j]);
    assert InsertAt(r, k - 1, s[j]) == Moved(s, j, k);
  }

  lemma MoveFrame(d: Dll<Node>, s: seq<Node>, j: nat, k: nat, o: seq<Node>)
    requires Chained(d, s) && Distinct(s) && 0 < j < k - 1 && k <= |s| && Chained(d, o) && Apart(s, o)
    ensures SameOn(d, InsertAfter(Unlink(d, s[j]), s[k - 1], s[j]), o)
  {
    var d' := Unlink(d, s[j]);
    UnlinkElsewhere(d, s, j, o);
    UnlinkChained(d, s, j);
    Neighbours(d', RemoveAt(s, j), k - 2);
    assert RemoveAt(s, j)[k - 2] == s[k - 1];
    if k < |s| { assert RemoveAt(s, j)[k - 1] == s[k]; }
  }

  lemma MoveSpells(tb: Table, lists: map<Addr, seq<Node>>, chains: map<Addr, seq<Entry>>, a: Addr, j: nat, k: nat)
    requires Spells(tb, lists, chains) && a in lists && 0 < j < k - 1 && k <= |lists[a]| == |chains[a]|
    ensures Spells(MoveBehind(tb, lists[a][j], lists[a][k - 1]), lists[a := Moved(lists[a], j, k)],
                   chains[a := Moved(chains[a], j, k)])
  {
    var s := lists[a];
    var tb' := MoveBehind(tb, s[j], s[k - 1]);
    assert ListOk(tb, a, s, chains[a]);
    MoveChained(tb.links, s, j, k);
    forall b | b in lists && b != a ensures SameAt(tb, tb', b, lists[b]) && Apart(Moved(s, j, k), lists[b]) {
      assert ListOk(tb, b, lists[b], chains[b]) && Apart(s, lists[b]);
      MoveFrame(tb.links, s, j, k, lists[b]);
    }
    Replaced(tb, tb', lists, chains, a, Moved(s, j, k), Moved(chains[a], j, k));
  }

  /** out is marked redundant_out. */
  function MarkOut(tb: Table, out: Node): Table
    requires out in tb.ents
  {
    tb.(ents := tb.ents[out := tb.ents[out].(redundantOut := true)])
  }

  lemma MarkSpells(tb: Table, lists: map<Addr, seq<Node>>, chains: map<Addr, seq<Entry>>, a: Addr, i: nat)
    requires Spells(tb, lists, chains) && a in lists && i < |lists[a]| == |chains[a]| && lists[a][i] in tb.ents
    ensures Spells(MarkOut(tb, lists[a][i]), lists, chains[a := chains[a][i := chains[a][i].(redundantOut := true)]])
  {
    var s, tb' := lists[a], MarkOut(tb, lists[a][i]);
    assert ListOk(tb, a, s, chains[a]);
    forall b | b in lists && b != a ensures SameAt(tb, tb', b, lists[b]) && Apart(s, lists[b]) {
      assert Apart(lists[a], lists[b]);
    }
    Replaced(tb, tb', lists, chains, a, s, chains[a][i := chains[a][i].(redundantOut := true)]);
    assert lists[a := s] == lists;
  }

  // ---------- Registering one clause ----------

  function NodeAt(s: seq<Node>, i: int): Ptr {
    if 0 <= i < |s| then At(s[i]) else Null
  }

  /** What follows the scan: the entry becomes the head; for an out clause the out entry met by the scan
      goes behind the last scanned one. */
  function Link(tb: Table, a: Addr, x: Node, isIn: bool, out: Ptr, last: Ptr): Table {
    var f := PutFront(tb, a, x);
    if isIn then f else Behind(f, out, last)
  }

  /** The nodes after that. */
  function LinkedNodes(s: seq<Node>, x: Node, isIn: bool, j: nat, k: nat): seq<Node>
    requires k <= |s|
  {
    if isIn || j >= k then [x] + s else Moved([x] + s, j + 1, k + 1)
  }

  lemma DemoteIsMoved(ch: seq<Entry>, e: Entry, j: nat, k: nat)
    requires j < k <= |ch|
    ensures var m := Moved([e] + ch, j + 1, k + 1);
      [e] + Demote(ch, j, k) == m[k := m[k].(redundantOut := true)]
  {
  }

  /** What the scan of the chain gives: the last out entry and the last entry before the first
      redundant_out one. */
  ghost predicate ScanGives(s: seq<Node>, ch: seq<Entry>, k: nat, j: nat, out: Ptr, last: Ptr) {
    && |s| == |ch| && k == Scanned(ch) && j == LastOut(ch, k)
    && out == (if j < k then NodeAt(s, j) else Null) && last == NodeAt(s, k - 1)
  }

  /** The pointers of a registered clause spell the chain that the engine specifies. */
  lemma LinkSpells(tb: Table, lists: map<Addr, seq<Node>>, chains: map<Addr, seq<Entry>>, a: Addr, x: Node,
                   s: seq<Node>, ch: seq<Entry>, isIn: bool, k: nat, j: nat, out: Ptr, last: Ptr)
    requires Spells(tb, lists, chains) && IsBlank(tb, x) && tb.ents[x] == Entry(x.task, isIn, false) && Outside(lists, x)
    requires s == ListAt(lists, a) && ch == (if a in chains then chains[a] else []) && ScanGives(s, ch, k, j, out, last)
    ensures Spells(Link(tb, a, x, isIn, out, last),
                   lists[a := LinkedNodes(s, x, isIn, j, k)], chains[a := Relink(ch, x.task, isIn)])
  {
    LinkBy(tb, lists, chains, a, x, s, ch, isIn, k, j, out, last, Relink(ch, x.task, isIn));
  }

  lemma LinkBy(tb: Table, lists: map<Addr, seq<Node>>, chains: map<Addr, seq<Entry>>, a: Addr, x: Node,
               s: seq<Node>, ch: seq<Entry>, isIn: bool, k: nat, j: nat, out: Ptr, last: Ptr, r: seq<Entry>)
    requires Spells(tb, lists, chains) && IsBlank(tb, x) && Outside(lists, x)
    requires s == ListAt(lists, a) && ch == (if a in chains then chains[a] else []) && |s| == |ch| && k <= |s|
    requires out == (if j < k then At(s[j]) else Null) && last == NodeAt(s, k - 1)
    requires r == [tb.ents[x]] + if isIn || j >= k then ch else Demote(ch, j, k)
    ensures Spells(Link(tb, a, x, isIn, out, last), lists[a := LinkedNodes(s, x, isIn, j, k)], chains[a := r])
  {
    PutFrontSpells(tb, lists, chains, a, x);
    if !isIn && j < k {
      LinkOutSpells(PutFront(tb, a, x), lists, chains, a, x, s, ch, k, j, out, last);
    }
  }

  /** The same node is the same place. */
  lemma SamePlace(f: Table, lists: map<Addr, seq<Node>>, chains: map<Addr, seq<Entry>>, a: Addr,
                  s: seq<Node>, ch: seq<Entry>, j: nat, k: nat)
    requires Spells(f, lists, chains) && a in lists && lists[a] == s && chains[a] == ch && j < |s| && k < |s|
    ensures s[j] == s[k] <==> j == k
    ensures s[j] in f.ents
  {
    assert ListOk(f, a, s, ch);
  }

  /** What is done to the previous out entry. */
  function Behind(f: Table, out: Ptr, last: Ptr): Table {
    if out == Null || last == Null || out.node !in f.ents then f
    else MarkOut(if out == last then f else MoveBehind(f, out.node, last.node), out.node)
  }

  lemma LinkOutSpells(f: Table, lists: map<Addr, seq<Node>>, chains: map<Addr, seq<Entry>>, a: Addr, x: Node,
                      s: seq<Node>, ch: seq<Entry>, k: nat, j: nat, out: Ptr, last: Ptr)
    requires x in f.ents && Spells(f, lists[a := [x] + s], chains[a := [f.ents[x]] + ch])
    requires |s| == |ch| && j < k <= |s| && out == At(s[j]) && last == At(s[k - 1])
    ensures Spells(Behind(f, out, last), lists[a := Moved([x] + s, j + 1, k + 1)], chains[a := [f.ents[x]] + Demote(ch, j, k)])
  {
    var e, nodes := f.ents[x], Moved([x] + s, j + 1, k + 1);
    DemoteIsMoved(ch, e, j, k);
    DemoteSpells(f, lists[a := [x] + s], chains[a := [e] + ch], a, [x] + s, [e] + ch, j + 1, k + 1,
                 nodes, [e] + Demote(ch, j, k), out, last);
    UpdateTwice(lists, a, [x] + s, nodes);
    UpdateTwice(chains, a, [e] + ch, [e] + Demote(ch, j, k));
  }

  lemma UpdateTwice<V>(m: map<Addr, V>, a: Addr, v: V, w: V)
    ensures m[a := v][a := w] == m[a := w]
  {
  }

  lemma DemoteSpells(f: Table, lists: map<Addr, seq<Node>>, chains: map<Addr, seq<Entry>>, a: Addr,
                     s: seq<Node>, ch: seq<Entry>, j: nat, k: nat, nodes: seq<Node>, marked: seq<Entry>, out: Ptr, last: Ptr)
    requires Spells(f, lists, chains) && a in lists && lists[a] == s && chains[a] == ch && |s| == |ch| && 0 < j < k <= |s|
    requires out == At(s[j]) && last == At(s[k - 1])
    requires nodes == Moved(s, j, k) && var m := Moved(ch, j, k); marked == m[k - 1 := m[k - 1].(redundantOut := true)]
    ensures Spells(Behind(f, out, last), lists[a := nodes], chains[a := marked])
  {
    var m, moved := if j == k - 1 then f else MoveBehind(f, s[j], s[k - 1]), Moved(ch, j, k);
    SamePlace(f, lists, chains, a, s, ch, j, k - 1);
    MovedSpells(f, lists, chains, a, s, ch, j, k);
    MarkMoved(m, lists[a := nodes], chains[a := moved], a, nodes, moved, k - 1, s[j]);
    UpdateTwice(chains, a, moved, marked);
    assert Behind(f, out, last) == MarkOut(m, s[j]);
  }

  lemma MarkMoved(m: Table, lists: map<Addr, seq<Node>>, chains: map<Addr, seq<Entry>>, a: Addr, nodes: seq<Node>,
                  moved: seq<Entry>, i: nat, out: Node)
    requires Spells(m, lists, chains) && a in lists && lists[a] == nodes && chains[a] == moved && i < |nodes| == |moved|
    requires nodes[i] == out && out in m.ents
    ensures Spells(MarkOut(m, out), lists, chains[a := moved[i := moved[i].(redundantOut := true)]])
  {
    MarkSpells(m, lists, chains, a, i);
  }

  /** Moving an entry behind itself changes nothing. */
  lemma MovedSpells(f: Table, lists: map<Addr, seq<Node>>, chains: map<Addr, seq<Entry>>, a: Addr,
                    s: seq<Node>, ch: seq<Entry>, j: nat, k: nat)
    requires Spells(f, lists, chains) && a in lists && lists[a] == s && chains[a] == ch && |s| == |ch| && 0 < j < k <= |s|
    ensures Spells(if j == k - 1 then f else MoveBehind(f, s[j], s[k - 1]), lists[a := Moved(s, j, k)], chains[a := Moved(ch, j, k)])
  {
    if j < k - 1 {
      MoveSpells(f, lists, chains, a, j, k);
    } else {
      assert Moved(s, j, k) == s && Moved(ch, j, k) == ch;
      assert lists[a := s] == lists && chains[a := ch] == chains;
    }
  }

  // ---------- Leaving a chain ----------

  /** The entry `x` is unlinked; the head of a chain gives its slot to its successor, or clears it. */
  function Leave(tb: Table, a: Addr, x: Node): Table {
    tb.(links := Unlink(tb.links, x),
        slot := if x in tb.links.prev then tb.slot
                else if x in tb.links.next then tb.slot[a := tb.links.next[x]] else tb.slot - {a})
  }

  lemma LeaveSpells(tb: Table, lists: map<Addr, seq<Node>>, chains: map<Addr, seq<Entry>>, a: Addr, p: nat)
    requires Spells(tb, lists, chains) && a in lists && p < |lists[a]| == |chains[a]|
    ensures |lists[a]| == 1 ==> Spells(Leave(tb, a, lists[a][p]), lists - {a}, chains - {a})
    ensures |lists[a]| > 1 ==> Spells(Leave(tb, a, lists[a][p]), lists[a := RemoveAt(lists[a], p)],
                                      chains[a := RemoveAt(chains[a], p)])
    ensures lists[a][p] !in tb.links.prev ==> tb.slot[a] == lists[a][p]
  {
    LeaveElsewhere(tb, lists, chains, a, p);
    LeaveList(tb, a, lists[a], chains[a], p);
    var tb' := Leave(tb, a, lists[a][p]);
    if |lists[a]| == 1 {
      Dropped(tb, tb', lists, chains, a);
    } else {
      Replaced(tb, tb', lists, chains, a, RemoveAt(lists[a], p), RemoveAt(chains[a], p));
    }
  }

  lemma LeaveElsewhere(tb: Table, lists: map<Addr, seq<Node>>, chains: map<Addr, seq<Entry>>, a: Addr, p: nat)
    requires Spells(tb, lists, chains) && a in lists && p < |lists[a]|
    ensures OthersSame(tb, Leave(tb, a, lists[a][p]), lists, a) && ApartFromOthers(lists, a, RemoveAt(lists[a], p))
  {
    var s := lists[a];
    var tb' := Leave(tb, a, s[p]);
    assert ListOk(tb, a, s, chains[a]);
    forall b | b in lists && b != a ensures SameAt(tb, tb', b, lists[b]) && Apart(RemoveAt(s, p), lists[b]) {
      assert ListOk(tb, b, lists[b], chains[b]) && Apart(s, lists[b]);
      UnlinkElsewhere(tb.links, s, p, lists[b]);
    }
  }

  lemma LeaveList(tb: Table, a: Addr, s: seq<Node>, ch: seq<Entry>, p: nat)
    requires ListOk(tb, a, s, ch) && p < |s|
    ensures var tb' := Leave(tb, a, s[p]);
      if |s| == 1 then tb'.slot == tb.slot - {a}
      else tb'.slot.Keys == tb.slot.Keys && ListOk(tb', a, RemoveAt(s, p), RemoveAt(ch, p))
    ensures s[p] !in tb.links.prev ==> tb.slot[a] == s[p]
  {
    Neighbours(tb.links, s, p);
    UnlinkChained(tb.links, s, p);
  }
}
