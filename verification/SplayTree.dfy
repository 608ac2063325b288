/** The splay tree of splay-tree.c: bottom-up splaying by rotations, insertion and removal at the root. */
module SplayTree {

  datatype Tree = Leaf | Node(left: Tree, key: int, right: Tree)

  function InOrder(t: Tree): seq<int> {
    match t
    case Leaf => []
    case Node(l, k, r) => InOrder(l) + [k] + InOrder(r)
  }

  predicate Sorted(s: seq<int>) {
    forall i, j :: 0 <= i < j < |s| ==> s[i] < s[j]
  }

  /** A search tree: its in-order sequence increases. */
  predicate Search(t: Tree) {
    Sorted(InOrder(t))
  }

  /** Rotate the edge to the left (right) child. */
  function RotateLeft(p: Tree): Tree
    requires p.Node? && p.left.Node?
  {
    Node(p.left.left, p.left.key, Node(p.left.right, p.key, p.right))
  }

  function RotateRight(p: Tree): Tree
    requires p.Node? && p.right.Node?
  {
    Node(Node(p.left, p.key, p.right.left), p.right.key, p.right.right)
  }

  /** Number of nodes a search for `key` visits. */
  function PathLength(t: Tree, key: int): nat {
    match t
    case Leaf => 0
    case Node(l, k, r) => if key == k then 1 else if key < k then 1 + PathLength(l, key) else 1 + PathLength(r, key)
  }

  /** The child a search for `key` goes to. */
  function Toward(t: Tree, key: int): Tree
    requires t.Node?
  {
    if key < t.key then t.left else t.right
  }

  /** The search stops at the root or below it there is nothing. */
  predicate Ends(t: Tree, key: int)
    requires t.Node?
  {
    key == t.key || Toward(t, key) == Leaf
  }

  /** The first two turns of the search go the same way. */
  predicate TurnsAgree(t: Tree, key: int) {
    && t.Node? && !Ends(t, key) && !Ends(Toward(t, key), key)
    && (key < t.key <==> key < Toward(t, key).key)
  }

  /** The double rotations. */
  function DoubleRotate(t: Tree, key: int): Tree
    requires t.Node? && !Ends(t, key) && !Ends(Toward(t, key), key)
  {
    var c := Toward(t, key);
    if key < t.key then
      RotateLeft(t.(left := if key < c.key then RotateLeft(c) else RotateRight(c)))
    else
      RotateRight(t.(right := if key < c.key then RotateLeft(c) else RotateRight(c)))
  }

  /** The turns disagree: the path gets shorter. */
  lemma ZigZagShortens(t: Tree, key: int)
    requires t.Node? && !Ends(t, key) && !Ends(Toward(t, key), key) && !TurnsAgree(t, key)
    ensures PathLength(DoubleRotate(t, key), key) < PathLength(t, key)
  {
    var g := Toward(Toward(t, key), key);
    assert PathLength(t, key) == 2 + PathLength(g, key);
  }

  /** The turns agree: the path gets shorter, or stays as long with turns that disagree. */
  lemma ZigZigShortens(t: Tree, key: int)
    requires TurnsAgree(t, key)
    ensures var r := DoubleRotate(t, key);
      PathLength(r, key) < PathLength(t, key) || (PathLength(r, key) == PathLength(t, key) && !TurnsAgree(r, key))
  {
    var r, c := DoubleRotate(t, key), Toward(t, key);
    var g := Toward(c, key);
    assert PathLength(t, key) == 2 + PathLength(g, key);
    if key < t.key {
      assert r == Node(g.left, g.key, Node(Node(g.right, c.key, c.right), t.key, t.right));
      if g.key < key { assert PathLength(r.right, key) == 2 + PathLength(g.right, key); }
    } else {
      assert r == Node(Node(t.left, t.key, Node(c.left, c.key, g.left)), g.key, g.right);
      if key < g.key { assert PathLength(r.left, key) == 2 + PathLength(g.left, key); }
    }
  }

  lemma DoubleRotateShortens(t: Tree, key: int)
    requires t.Node? && !Ends(t, key) && !Ends(Toward(t, key), key)
    ensures var r := DoubleRotate(t, key);
      PathLength(r, key) < PathLength(t, key) ||
      (PathLength(r, key) == PathLength(t, key) && TurnsAgree(t, key) && !TurnsAgree(r, key))
  {
    if TurnsAgree(t, key) { ZigZigShortens(t, key); } else { ZigZagShortens(t, key); }
  }

  lemma SortedParts(a: seq<int>, k: int, b: seq<int>)
    requires Sorted(a + [k] + b)
    ensures Sorted(a) && Sorted(b)
    ensures forall x :: x in a ==> x < k
    ensures forall x :: x in b ==> k < x
    ensures forall x, y :: x in a && y in b ==> x < y
  {
    var s := a + [k] + b;
    assert forall i :: 0 <= i < |a| ==> s[i] == a[i];
    assert s[|a|] == k;
    assert forall i :: 0 <= i < |b| ==> s[|a| + 1 + i] == b[i];
  }

  /** Subtrees of a search tree are search trees and lie on their side of the root. */
  lemma ChildOrder(t: Tree)
    requires t.Node? && Search(t)
    ensures Search(t.left) && Search(t.right)
    ensures t.left.Node? ==> t.left.key < t.key
    ensures t.right.Node? ==> t.key < t.right.key
    ensures forall x :: x in InOrder(t.left) ==> x < t.key
    ensures forall x :: x in InOrder(t.right) ==> t.key < x
  {
    SortedParts(InOrder(t.left), t.key, InOrder(t.right));
    if t.left.Node? { assert t.left.key in InOrder(t.left); }
    if t.right.Node? { assert t.right.key in InOrder(t.right); }
  }

  /** Both groupings of three parts around two keys. */
  lemma Regroup(a: seq<int>, j: int, b: seq<int>, k: int, c: seq<int>)
    ensures (a + [j] + b) + [k] + c == a + [j] + (b + [k] + c)
  {
  }

  lemma RotateLeftOrder(p: Tree)
    requires p.Node? && p.left.Node?
    ensures InOrder(RotateLeft(p)) == InOrder(p)
  {
    Regroup(InOrder(p.left.left), p.left.key, InOrder(p.left.right), p.key, InOrder(p.right));
  }

  lemma RotateRightOrder(p: Tree)
    requires p.Node? && p.right.Node?
    ensures InOrder(RotateRight(p)) == InOrder(p)
  {
    Regroup(InOrder(p.left), p.key, InOrder(p.right.left), p.right.key, InOrder(p.right.right));
  }

  lemma DoubleRotateOrder(t: Tree, key: int)
    requires t.Node? && !Ends(t, key) && !Ends(Toward(t, key), key)
    ensures InOrder(DoubleRotate(t, key)) == InOrder(t)
  {
    var c := Toward(t, key);
    var c' := if key < c.key then RotateLeft(c) else RotateRight(c);
    if key < c.key { RotateLeftOrder(c); } else { RotateRightOrder(c); }
    if key < t.key { RotateLeftOrder(t.(left := c')); } else { RotateRightOrder(t.(right := c')); }
  }

  /** splay_tree_splay: the loop terminates by the length of the search path, then by whether the first
      two turns agree. */
  function Splay(t: Tree, key: int): Tree
    decreases PathLength(t, key), if TurnsAgree(t, key) then 1 else 0
  {
    if t == Leaf || Ends(t, key) then t
    else if Ends(Toward(t, key), key) then (if key < t.key then RotateLeft(t) else RotateRight(t))
    else
      DoubleRotateShortens(t, key);
      Splay(DoubleRotate(t, key), key)
  }

  /** The root holds `key` or its immediate predecessor or successor. */
  ghost predicate AtKey(t: Tree, key: int) {
    t.Node? ==>
      || t.key == key
      || (t.key < key && forall x :: x in InOrder(t.right) ==> key < x)
      || (t.key > key && forall x :: x in InOrder(t.left) ==> x < key)
  }

  lemma {:induction false} SplayOrder(t: Tree, key: int)
    ensures InOrder(Splay(t, key)) == InOrder(t)
    decreases PathLength(t, key), if TurnsAgree(t, key) then 1 else 0
  {
    if t == Leaf || Ends(t, key) {
    } else if Ends(Toward(t, key), key) {
      if key < t.key { RotateLeftOrder(t); } else { RotateRightOrder(t); }
    } else {
      DoubleRotateShortens(t, key);
      DoubleRotateOrder(t, key);
      SplayOrder(DoubleRotate(t, key), key);
    }
  }

  lemma LastRotation(t: Tree, key: int)
    requires Search(t) && t.Node? && !Ends(t, key) && Ends(Toward(t, key), key)
    ensures AtKey(if key < t.key then RotateLeft(t) else RotateRight(t), key)
  {
    ChildOrder(t);
    ChildOrder(Toward(t, key));
    var c := Toward(t, key);
    if key < t.key {
      var r := RotateLeft(t);
      assert r.left == c.left;
      assert InOrder(r.right) == InOrder(c.right) + [t.key] + InOrder(t.right);
    } else {
      var r := RotateRight(t);
      assert r.right == c.right;
      assert InOrder(r.left) == InOrder(t.left) + [t.key] + InOrder(c.left);
    }
  }

  /** Splaying a search tree brings the key, or a neighbour of it, to the root. */
  lemma {:induction false} SplayAtKey(t: Tree, key: int)
    requires Search(t)
    ensures AtKey(Splay(t, key), key) && Search(Splay(t, key))
    decreases PathLength(t, key), if TurnsAgree(t, key) then 1 else 0
  {
    SplayOrder(t, key);
    if t == Leaf || Ends(t, key) {
      if t.Node? { ChildOrder(t); }
    } else if Ends(Toward(t, key), key) {
      LastRotation(t, key);
    } else {
      DoubleRotateShortens(t, key);
      DoubleRotateOrder(t, key);
      SplayAtKey(DoubleRotate(t, key), key);
    }
  }

  // ---------- Insertion and removal at the root ----------

  /** The new node takes the place of the splayed root, which goes to its side. */
  function InsertAtRoot(t: Tree, key: int): Tree {
    match t
    case Leaf => Node(Leaf, key, Leaf)
    case Node(l, k, r) => if k < key then Node(t.(right := Leaf), key, r) else Node(l, key, t.(left := Leaf))
  }

  /** Where `key` belongs in the sorted sequence. */
  function Rank(s: seq<int>, key: int): (i: nat)
    ensures i <= |s|
    ensures forall j :: 0 <= j < i ==> s[j] < key
    ensures i < |s| ==> s[i] >= key
  {
    if s == [] || s[0] >= key then 0 else 1 + Rank(s[1..], key)
  }

  function InsertSorted(s: seq<int>, key: int): seq<int> {
    s[..Rank(s, key)] + [key] + s[Rank(s, key)..]
  }

  lemma {:induction false} RankIs(s: seq<int>, key: int, i: nat)
    requires i <= |s|
    requires (forall j :: 0 <= j < i ==> s[j] < key) && (forall j :: i <= j < |s| ==> s[j] > key)
    ensures Rank(s, key) == i
  {
    if i > 0 {
      RankIs(s[1..], key, i - 1);
    }
  }

  lemma {:induction false} RankAt(s: seq<int>, i: nat)
    requires Sorted(s) && i < |s|
    ensures Rank(s, s[i]) == i
  {
    if i > 0 {
      RankAt(s[1..], i - 1);
    }
  }

  lemma RankAfter(a: seq<int>, k: int, b: seq<int>, key: int)
    requires Sorted(a + [k] + b) && k < key && (forall x :: x in b ==> key < x)
    ensures InsertSorted(a + [k] + b, key) == a + [k] + [key] + b && key !in a + [k] + b
    ensures Rank(a + [k] + b, key) == |a| + 1
  {
    var s := a + [k] + b;
    SortedParts(a, k, b);
    forall j | 0 <= j < |s| ensures if j <= |a| then s[j] < key else s[j] > key {
      if j < |a| { assert s[j] == a[j] && a[j] in a; }
      if j > |a| { assert s[j] == b[j - |a| - 1] && b[j - |a| - 1] in b; }
    }
    RankIs(s, key, |a| + 1);
    assert s[..|a| + 1] == a + [k] && s[|a| + 1..] == b;
  }

  lemma RankBefore(a: seq<int>, k: int, b: seq<int>, key: int)
    requires Sorted(a + [k] + b) && key < k && (forall x :: x in a ==> x < key)
    ensures InsertSorted(a + [k] + b, key) == a + [key] + [k] + b && key !in a + [k] + b
    ensures Rank(a + [k] + b, key) == |a|
  {
    var s := a + [k] + b;
    SortedParts(a, k, b);
    forall j | 0 <= j < |s| ensures if j < |a| then s[j] < key else s[j] > key {
      if j < |a| { assert s[j] == a[j] && a[j] in a; }
      if j > |a| { assert s[j] == b[j - |a| - 1] && b[j - |a| - 1] in b; }
    }
    RankIs(s, key, |a|);
    assert s[..|a|] == a && s[|a|..] == [k] + b;
  }

  lemma SplitAfter(l: Tree, k: int, r: Tree, key: int)
    ensures InOrder(Node(Node(l, k, Leaf), key, r)) == InOrder(l) + [k] + [key] + InOrder(r)
  {
    assert InOrder(Node(l, k, Leaf)) == InOrder(l) + [k] + [];
  }

  lemma SplitBefore(l: Tree, k: int, r: Tree, key: int)
    ensures InOrder(Node(l, key, Node(Leaf, k, r))) == InOrder(l) + [key] + [k] + InOrder(r)
  {
    assert InOrder(Node(Leaf, k, r)) == [] + [k] + InOrder(r);
  }

  /** With a neighbour of the key at the root, splitting there inserts in order. */
  lemma InsertOrder(t: Tree, key: int)
    requires Search(t) && AtKey(t, key) && (t.Node? ==> t.key != key)
    ensures InOrder(InsertAtRoot(t, key)) == InsertSorted(InOrder(t), key)
    ensures key !in InOrder(t)
  {
    match t {
      case Leaf =>
      case Node(l, k, r) =>
        if k < key {
          RankAfter(InOrder(l), k, InOrder(r), key);
          SplitAfter(l, k, r, key);
        } else {
          RankBefore(InOrder(l), k, InOrder(r), key);
          SplitBefore(l, k, r, key);
        }
    }
  }

  /** The whole right subtree is hung off the right-most node of the left one. */
  function HangRight(l: Tree, r: Tree): Tree
    requires l.Node?
  {
    if l.right == Leaf then l.(right := r) else l.(right := HangRight(l.right, r))
  }

  lemma {:induction false} HangRightOrder(l: Tree, r: Tree)
    requires l.Node?
    ensures InOrder(HangRight(l, r)) == InOrder(l) + InOrder(r)
  {
    if l.right == Leaf {
      assert InOrder(l) == InOrder(l.left) + [l.key];
    } else {
      HangRightOrder(l.right, r);
      assert InOrder(l) + InOrder(r) == InOrder(l.left) + [l.key] + (InOrder(l.right) + InOrder(r));
    }
  }

  function RemoveRoot(t: Tree): Tree
    requires t.Node?
  {
    if t.left == Leaf then t.right else if t.right == Leaf then t.left else HangRight(t.left, t.right)
  }

  lemma RemoveRootOrder(t: Tree)
    requires t.Node?
    ensures InOrder(RemoveRoot(t)) == InOrder(t.left) + InOrder(t.right)
  {
    if t.left.Node? { HangRightOrder(t.left, t.right); }
  }
}
