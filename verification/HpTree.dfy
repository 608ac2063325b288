/** The priority splay tree with its HP-LIST (splay-tree.c): nodes are also threaded in key order and may
    be marked, and the tree caches the number of marked nodes and the highest marked one. */
module HpTree {
  import opened Links
  import opened SplayTree

  datatype Highest = NoneMarked | At(key: int)

  /** `h` is the greatest element of `marked`, if any. */
  ghost predicate IsHighest(marked: set<int>, h: Highest) {
    match h
    case NoneMarked => marked == {}
    case At(k) => k in marked && forall x :: x in marked ==> x <= k
  }

  lemma HighestUnique(marked: set<int>, h: Highest, g: Highest)
    requires IsHighest(marked, h) && IsHighest(marked, g)
    ensures h == g
  {
  }

  lemma SortedDistinct(s: seq<int>)
    requires Sorted(s)
    ensures Distinct(s)
  {
  }

  lemma NodeAt(t: Tree)
    requires t.Node?
    ensures |InOrder(t.left)| < |InOrder(t)| && InOrder(t)[|InOrder(t.left)|] == t.key
  {
  }

  /** Removing the root from tree and threading keeps both in order. */
  lemma RootLeaves(links: Dll<int>, root: Tree)
    requires root.Node? && Search(root) && Chained(links, InOrder(root))
    ensures var r := RemoveRoot(root);
      Search(r) && Chained(Unlink(links, root.key), InOrder(r)) && Removed(InOrder(root), root.key, InOrder(r))
  {
    RootRank(root);
    RootGone(root);
    SequenceLeaves(links, InOrder(root), |InOrder(root.left)|, InOrder(RemoveRoot(root)));
  }

  lemma RootGone(t: Tree)
    requires t.Node?
    ensures |InOrder(t.left)| < |InOrder(t)|
    ensures InOrder(RemoveRoot(t)) == RemoveAt(InOrder(t), |InOrder(t.left)|)
  {
    RemoveRootOrder(t);
    assert InOrder(t)[..|InOrder(t.left)|] == InOrder(t.left);
    assert InOrder(t)[|InOrder(t.left)| + 1..] == InOrder(t.right);
  }

  lemma SequenceLeaves(links: Dll<int>, s: seq<int>, i: nat, r: seq<int>)
    requires Sorted(s) && Chained(links, s) && i < |s| && Rank(s, s[i]) == i && r == RemoveAt(s, i)
    ensures Sorted(r) && Chained(Unlink(links, s[i]), r) && Removed(s, s[i], r)
  {
    SortedDistinct(s);
    UnlinkChained(links, s, i);
    RemoveFacts(s, i);
  }

  class PrioTree {
    var root: Tree
    var links: Dll<int>
    var marked: set<int>
    var numMarked: int
    var highest: Highest

    function Keys(): seq<int>
      reads this
    {
      InOrder(root)
    }

    /** The threading spells the in-order sequence and the cached values are right. */
    ghost predicate Valid()
      reads this
    {
      && Search(root) && Chained(links, InOrder(root))
      && (forall x :: x in marked ==> x in InOrder(root))
      && numMarked == |marked| && IsHighest(marked, highest)
    }

    constructor ()
      ensures Valid() && Keys() == [] && marked == {}
    {
      root, links, marked, numMarked, highest := Leaf, Dll(map[], map[]), {}, 0, NoneMarked;
    }

    /** splay_tree_splay, the loop. */
    method SplayKey(key: int)
      modifies this`root
      ensures root == Splay(old(root), key) && InOrder(root) == InOrder(old(root))
      ensures Search(old(root)) ==> Search(root) && AtKey(root, key)
    {
      SplayOrder(root, key);
      if Search(root) { SplayAtKey(root, key); }
      if root == Leaf {
        return;
      }
      while true
        invariant root.Node? && Splay(root, key) == Splay(old(root), key)
        decreases PathLength(root, key), if TurnsAgree(root, key) then 1 else 0
      {
        if key == root.key {
          return;
        }
        var c := if key < root.key then root.left else root.right;
        if c == Leaf {
          return;
        }
        if key == c.key || (key < c.key && c.left == Leaf) || (key > c.key && c.right == Leaf) {
          root := if key < root.key then RotateLeft(root) else RotateRight(root);
          return;
        }
        DoubleRotateShortens(root, key);
        root := DoubleRotate(root, key);
      }
    }

    /** Afterwards the root tells whether the key is in the tree. */
    method BringUp(key: int) returns (found: bool)
      requires Valid()
      modifies this`root
      ensures Valid() && InOrder(root) == InOrder(old(root)) && AtKey(root, key)
      ensures found <==> root.Node? && root.key == key
      ensures found <==> key in InOrder(root)
    {
      SplayKey(key);
      found := root.Node? && root.key == key;
      if found {
        NodeAt(root);
      } else {
        InsertOrder(root, key);
      }
    }

    /** splay_tree_lookup. */
    method Lookup(key: int) returns (found: bool)
      requires Valid()
      modifies this`root
      ensures Valid() && Keys() == old(Keys()) && (found <==> key in Keys())
    {
      found := BringUp(key);
    }

    /** Walk the HP-LIST down from `key` to the next marked node. */
    method MarkedBelow(key: int) returns (h: Highest)
      requires Search(root) && Chained(links, InOrder(root)) && key in InOrder(root)
      ensures match h
        case NoneMarked => forall x :: x in marked && x in InOrder(root) ==> x >= key
        case At(k) => k in marked && k < key && forall x :: x in marked && x in InOrder(root) && x < key ==> x <= k
    {
      ghost var s := InOrder(root);
      ghost var i: int :| 0 <= i < |s| && s[i] == key;
      ghost var top := i;
      var node := key;
      Neighbours(links, s, i);
      while node in links.prev
        invariant 0 <= i <= top < |s| && s[i] == node
        invariant node in links.prev <==> i > 0
        invariant i > 0 ==> links.prev[node] == s[i - 1]
        invariant forall j :: i <= j < top ==> s[j] !in marked
        decreases i
      {
        node := links.prev[node];
        i := i - 1;
        Neighbours(links, s, i);
        if node in marked {
          return At(node);
        }
      }
      return NoneMarked;
    }

    /** splay_tree_hp_list_mark_node. */
    method MarkNode(key: int, isMarked: bool) returns (changed: bool)
      requires Valid() && key in Keys()
      modifies this`marked, this`numMarked, this`highest
      ensures Valid() && marked == (if isMarked then old(marked) + {key} else old(marked) - {key})
      ensures changed <==> highest != old(highest)
    {
      if isMarked {
        changed := Mark(key);
      } else {
        changed := Unmark(key);
      }
    }

    method Mark(key: int) returns (changed: bool)
      requires Valid() && key in Keys()
      modifies this`marked, this`numMarked, this`highest
      ensures Valid() && marked == old(marked) + {key}
      ensures changed <==> highest != old(highest)
    {
      changed := false;
      if key !in marked {
        numMarked := numMarked + 1;
        marked := marked + {key};
        if highest == NoneMarked || key > highest.key {
          changed := true;
          highest := At(key);
        }
      }
    }

    method Unmark(key: int) returns (changed: bool)
      requires Valid() && key in Keys()
      modifies this`marked, this`numMarked, this`highest
      ensures Valid() && marked == old(marked) - {key}
      ensures changed <==> highest != old(highest)
    {
      changed := false;
      if key in marked {
        numMarked := numMarked - 1;
        marked := marked - {key};
        if highest == At(key) {
          changed := true;
          highest := NoneMarked;
          if numMarked > 0 {
            highest := MarkedBelow(key);
          }
        }
      }
    }

    /** The HP-LIST part of an insertion next to the splayed root. */
    method ThreadIn(key: int)
      requires Search(root) && AtKey(root, key) && Chained(links, InOrder(root)) && (root.Node? ==> root.key != key)
      requires root == Leaf ==> key !in links.next && key !in links.prev
      modifies this`links
      ensures Chained(links, InsertSorted(InOrder(root), key))
    {
      if root == Leaf {
        return;
      }
      ghost var s, i := InOrder(root), |InOrder(root.left)|;
      NodeAt(root);
      InsertOrder(root, key);
      SortedDistinct(s);
      InsertRank(root, key);
      if root.key < key {
        InsertAfterChained(links, s, i, key);
        links := InsertAfter(links, root.key, key);
      } else {
        InsertBeforeChained(links, s, i, key);
        links := InsertBefore(links, root.key, key);
      }
    }

    /** The new node becomes the root. */
    method LinkNew(key: int)
      requires Search(root) && AtKey(root, key) && Chained(links, InOrder(root)) && (root.Node? ==> root.key != key)
      modifies this`links, this`root
      ensures InOrder(root) == InsertSorted(InOrder(old(root)), key)
      ensures Search(root) && Chained(links, InOrder(root))
      ensures forall x :: x in InOrder(root) <==> x in InOrder(old(root)) || x == key
    {
      InsertOrder(root, key);
      InsertSortedFacts(InOrder(root), key);
      if root == Leaf {
        links := Dll(links.next - {key}, links.prev - {key});
      }
      ThreadIn(key);
      root := InsertAtRoot(root, key);
    }

    /** splay_tree_hp_list_insert; a duplicate key is refused. */
    method Insert(key: int, isMarked: bool) returns (inserted: bool, changed: bool)
      requires Valid()
      modifies this
      ensures Valid() && (inserted <==> key !in old(Keys()))
      ensures Keys() == if inserted then InsertSorted(old(Keys()), key) else old(Keys())
      ensures marked == if inserted && isMarked then old(marked) + {key} else old(marked)
      ensures changed <==> highest != old(highest)
    {
      var found := BringUp(key);
      if found {
        return false, false;
      }
      LinkNew(key);
      inserted, changed := true, false;
      if isMarked {
        changed := MarkNode(key, true);
      }
    }

    /** The root leaves the tree and the HP-LIST. */
    method UnlinkRoot()
      requires root.Node? && Search(root) && Chained(links, InOrder(root))
      modifies this`links, this`root
      ensures Removed(InOrder(old(root)), old(root).key, InOrder(root))
      ensures Search(root) && Chained(links, InOrder(root))
    {
      RootLeaves(links, root);
      links := Unlink(links, root.key);
      root := RemoveRoot(root);
    }

    /** The found node gives up its mark and leaves. */
    method RemoveFound() returns (changed: bool)
      requires Valid() && root.Node?
      modifies this
      ensures Valid() && marked == old(marked) - {old(root).key}
      ensures Removed(old(Keys()), old(root).key, Keys())
      ensures changed <==> highest != old(highest)
    {
      var key := root.key;
      NodeAt(root);
      changed := MarkNode(key, false);
      ghost var s := InOrder(root);
      UnlinkRoot();
      MarkedStay(s, key, InOrder(root), marked);
    }

    /** splay_tree_hp_list_remove; nothing happens when the key is absent. */
    method Remove(key: int) returns (changed: bool)
      requires Valid()
      modifies this
      ensures Valid() && marked == old(marked) - {key}
      ensures key !in old(Keys()) ==> Keys() == old(Keys())
      ensures key in old(Keys()) ==> Removed(old(Keys()), key, Keys())
      ensures changed <==> highest != old(highest)
    {
      var found := BringUp(key);
      if !found {
        return false;
      }
      changed := RemoveFound();
    }
  }

  /** Where the splayed root stands relative to the key. */
  lemma InsertRank(t: Tree, key: int)
    requires t.Node? && Search(t) && AtKey(t, key) && t.key != key
    ensures Rank(InOrder(t), key) == |InOrder(t.left)| + if t.key < key then 1 else 0
    ensures InsertSorted(InOrder(t), key) == InsertAt(InOrder(t), Rank(InOrder(t), key), key)
  {
    if t.key < key {
      RankAfter(InOrder(t.left), t.key, InOrder(t.right), key);
    } else {
      RankBefore(InOrder(t.left), t.key, InOrder(t.right), key);
    }
  }

  lemma InsertSortedFacts(s: seq<int>, key: int)
    requires Sorted(s) && key !in s
    ensures Sorted(InsertSorted(s, key))
    ensures forall x :: x in InsertSorted(s, key) <==> x in s || x == key
  {
    var i := Rank(s, key);
    assert InsertSorted(s, key) == InsertAt(s, i, key);
    forall j | i <= j < |s| ensures s[j] > key { assert s[i] in s && s[i] > key; }
    InsertAtSorted(s, i, key);
    InsertAtMembers(s, i, key);
  }

  lemma InsertAtSorted(s: seq<int>, i: nat, key: int)
    requires Sorted(s) && i <= |s|
    requires (forall j :: 0 <= j < i ==> s[j] < key) && forall j :: i <= j < |s| ==> s[j] > key
    ensures Sorted(InsertAt(s, i, key))
  {
  }

  lemma InsertAtMembers(s: seq<int>, i: nat, key: int)
    requires i <= |s|
    ensures forall x :: x in InsertAt(s, i, key) <==> x in s || x == key
  {
    var r := InsertAt(s, i, key);
    assert r[i] == key;
    forall x | x in s ensures x in r {
      var j :| 0 <= j < |s| && s[j] == x;
      assert r[if j < i then j else j + 1] == x;
    }
  }

  lemma RootRank(t: Tree)
    requires t.Node? && Search(t)
    ensures Rank(InOrder(t), t.key) == |InOrder(t.left)| < |InOrder(t)|
    ensures InOrder(t)[|InOrder(t.left)|] == t.key
  {
    NodeAt(t);
    RankAt(InOrder(t), |InOrder(t.left)|);
  }

  /** `r` is `s` without `key`. */
  ghost predicate Removed(s: seq<int>, key: int, r: seq<int>) {
    && key in s && key !in r && Rank(s, key) < |s|
    && r == RemoveAt(s, Rank(s, key))
    && forall x :: x in s && x != key ==> x in r
  }

  lemma MarkedStay(s: seq<int>, key: int, r: seq<int>, marked: set<int>)
    requires Removed(s, key, r) && key !in marked && forall x :: x in marked ==> x in s
    ensures forall x :: x in marked ==> x in r
  {
  }

  lemma RemoveFacts(s: seq<int>, i: nat)
    requires Sorted(s) && i < |s|
    ensures Sorted(RemoveAt(s, i)) && s[i] !in RemoveAt(s, i)
    ensures forall x :: x in s && x != s[i] ==> x in RemoveAt(s, i)
  {
    var r := RemoveAt(s, i);
    forall x | x in s && x != s[i] ensures x in r {
      var j :| 0 <= j < |s| && s[j] == x;
      assert r[if j < i then j else j - 1] == x;
    }
  }
}
