/** Singly linked lists that end in NULL, over a shared map of next fields. */
module Chains {
  import opened Links

  type Id = nat

  /** A pointer to a node, or NULL. */
  datatype Ptr = Null | To(id: Id)

  function PtrAt(s: seq<Id>, i: int): Ptr {
    if 0 <= i < |s| then To(s[i]) else Null
  }

  /** A list through `next` that ends in NULL. */
  predicate Chain(next: map<Id, Ptr>, head: Ptr, s: seq<Id>) {
    && head == PtrAt(s, 0) && Distinct(s)
    && forall i :: 0 <= i < |s| ==> ChainAt(next, s, i)
  }

  predicate ChainAt(next: map<Id, Ptr>, s: seq<Id>, i: int)
    requires 0 <= i < |s|
  {
    s[i] in next && next[s[i]] == PtrAt(s, i + 1)
  }

  lemma ChainFrame(next: map<Id, Ptr>, head: Ptr, s: seq<Id>, x: Id, p: Ptr)
    requires Chain(next, head, s) && x !in s
    ensures Chain(next[x := p], head, s)
  {
    var next' := next[x := p];
    forall i | 0 <= i < |s| ensures ChainAt(next', s, i) { assert ChainAt(next, s, i); }
  }

  lemma TailChain(next: map<Id, Ptr>, head: Ptr, s: seq<Id>)
    requires Chain(next, head, s) && s != []
    ensures s[0] in next && Chain(next, next[s[0]], s[1..])
  {
    assert ChainAt(next, s, 0);
    forall i | 0 <= i < |s| - 1 ensures ChainAt(next, s[1..], i) { assert ChainAt(next, s, i + 1); }
  }

  lemma CutChains(next: map<Id, Ptr>, head: Ptr, s: seq<Id>, k: nat)
    requires Chain(next, head, s) && 0 < k < |s|
    ensures Chain(next[s[k - 1] := Null], head, s[..k]) && Chain(next[s[k - 1] := Null], To(s[k]), s[k..])
  {
    var next', a, b := next[s[k - 1] := Null], s[..k], s[k..];
    forall i | 0 <= i < |a| ensures ChainAt(next', a, i) { assert ChainAt(next, s, i); }
    forall i | 0 <= i < |b| ensures ChainAt(next', b, i) { assert ChainAt(next, s, k + i); }
  }

  lemma {:induction false} OneChain(next: map<Id, Ptr>, head: Ptr, s: seq<Id>, r: seq<Id>)
    requires Chain(next, head, s) && Chain(next, head, r)
    ensures s == r
    decreases |s|
  {
    if s != [] {
      TailChain(next, head, s);
      TailChain(next, head, r);
      OneChain(next, next[s[0]], s[1..], r[1..]);
      assert s == [s[0]] + s[1..] && r == [r[0]] + r[1..];
    }
  }

  /** The nodes of a new block linked one after the other. */
  function BlockLinks(next: map<Id, Ptr>, block: seq<Id>): map<Id, Ptr> {
    map x | x in next.Keys + (set y | y in block) :: if x in block then After(block, x) else next[x]
  }

  function After(s: seq<Id>, x: Id): Ptr {
    if |s| < 2 then Null else if s[0] == x then To(s[1]) else After(s[1..], x)
  }

  lemma {:induction false} AfterAt(s: seq<Id>, i: nat)
    requires Distinct(s) && i < |s|
    ensures After(s, s[i]) == PtrAt(s, i + 1)
  {
    if |s| >= 2 && i > 0 {
      AfterAt(s[1..], i - 1);
    }
  }

  ghost predicate NewBlock(next: map<Id, Ptr>, block: seq<Id>) {
    Distinct(block) && |block| >= 1 && forall x :: x in block ==> x !in next
  }

  lemma ChainFrameBlock(next: map<Id, Ptr>, head: Ptr, s: seq<Id>, block: seq<Id>)
    requires Chain(next, head, s) && NewBlock(next, block)
    ensures Chain(BlockLinks(next, block), head, s)
  {
    var next' := BlockLinks(next, block);
    forall i | 0 <= i < |s| ensures ChainAt(next', s, i) { assert ChainAt(next, s, i); }
  }

  lemma BlockChainWhole(next: map<Id, Ptr>, block: seq<Id>)
    requires NewBlock(next, block)
    ensures Chain(BlockLinks(next, block), PtrAt(block, 0), block)
  {
    var next' := BlockLinks(next, block);
    forall i | 0 <= i < |block| ensures ChainAt(next', block, i) { AfterAt(block, i); }
  }
}
