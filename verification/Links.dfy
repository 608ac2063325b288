/** Doubly linked lists threaded through two pointer fields.  A node without a `next` (`prev`) entry
    has a NULL pointer.  The operations are the pointer assignments the runtime performs; `Chained`
    says which sequence of nodes the pointers spell. */
module Links {

  datatype Dll<T(==)> = Dll(next: map<T, T>, prev: map<T, T>)

  predicate Distinct<T(==)>(s: seq<T>) {
    forall i, j :: 0 <= i < j < |s| ==> s[i] != s[j]
  }

  predicate LinkAt<T(==)>(d: Dll<T>, s: seq<T>, i: int)
    requires 0 <= i < |s| - 1
  {
    && s[i] in d.next && d.next[s[i]] == s[i + 1]
    && s[i + 1] in d.prev && d.prev[s[i + 1]] == s[i]
  }

  /** The pointers spell exactly `s`: neighbours point at each other and the ends are NULL. */
  predicate Chained<T(==)>(d: Dll<T>, s: seq<T>) {
    && (forall i :: 0 <= i < |s| - 1 ==> LinkAt(d, s, i))
    && (s != [] ==> s[0] !in d.prev && s[|s| - 1] !in d.next)
  }

  /** `x` is put after the last node `y`. */
  function Push<T(==)>(d: Dll<T>, y: T, x: T): Dll<T> {
    Dll(d.next[y := x] - {x}, d.prev[x := y])
  }

  /** `y` becomes the last node. */
  function Cut<T(==)>(d: Dll<T>, y: T): Dll<T> {
    Dll(d.next - {y}, d.prev)
  }

  /** The neighbours of `x` are made to point at each other; the fields of `x` stay. */
  function Unlink<T(==)>(d: Dll<T>, x: T): Dll<T> {
    var prev := if x !in d.next then d.prev
                else if x in d.prev then d.prev[d.next[x] := d.prev[x]] else d.prev - {d.next[x]};
    var next := if x !in d.prev then d.next
                else if x in d.next then d.next[d.prev[x] := d.next[x]] else d.next - {d.prev[x]};
    Dll(next, prev)
  }

  function RemoveAt<T>(s: seq<T>, i: nat): (r: seq<T>)
    requires i < |s|
    ensures |r| == |s| - 1
    ensures forall k :: 0 <= k < |r| ==> r[k] == s[if k < i then k else k + 1]
  {
    s[..i] + s[i + 1..]
  }

  function Last<T>(s: seq<T>): T
    requires s != []
  {
    s[|s| - 1]
  }

  lemma PushChained<T>(d: Dll<T>, s: seq<T>, x: T)
    requires Chained(d, s) && Distinct(s) && s != [] && x !in s
    ensures Chained(Push(d, Last(s), x), s + [x]) && Distinct(s + [x])
  {
    var d', r := Push(d, Last(s), x), s + [x];
    forall i | 0 <= i < |r| - 1
      ensures LinkAt(d', r, i)
    {
      if i < |s| - 1 {
        assert LinkAt(d, s, i);
        assert s[i] != Last(s) && s[i] != x && s[i + 1] != x;
      }
    }
    assert s[0] != x;
  }

  lemma SingletonChained<T>(d: Dll<T>, x: T)
    requires x !in d.next && x !in d.prev
    ensures Chained(d, [x])
  {
  }

  lemma CutChained<T>(d: Dll<T>, s: seq<T>)
    requires Chained(d, s) && Distinct(s) && |s| > 1
    ensures Chained(Cut(d, s[|s| - 2]), s[..|s| - 1])
  {
    var r, d' := s[..|s| - 1], Cut(d, s[|s| - 2]);
    forall i | 0 <= i < |r| - 1
      ensures LinkAt(d', r, i)
    {
      assert LinkAt(d, s, i);
    }
  }

  lemma Neighbours<T>(d: Dll<T>, s: seq<T>, i: nat)
    requires Chained(d, s) && i < |s|
    ensures s[i] in d.next <==> i < |s| - 1
    ensures s[i] in d.prev <==> i > 0
    ensures i < |s| - 1 ==> d.next[s[i]] == s[i + 1]
    ensures i > 0 ==> d.prev[s[i]] == s[i - 1]
  {
    if i < |s| - 1 { assert LinkAt(d, s, i); }
    if i > 0 { assert LinkAt(d, s, i - 1); }
  }

  lemma UnlinkChained<T>(d: Dll<T>, s: seq<T>, i: nat)
    requires Chained(d, s) && Distinct(s) && i < |s|
    ensures Chained(Unlink(d, s[i]), RemoveAt(s, i)) && Distinct(RemoveAt(s, i))
  {
    var d', r := Unlink(d, s[i]), RemoveAt(s, i);
    Neighbours(d, s, i);
    forall k | 0 <= k < |r| - 1
      ensures LinkAt(d', r, k)
    {
      var k' := if k < i then k else k + 1;
      Neighbours(d, s, k');
      Neighbours(d, s, k' + 1);
      if k' + 1 == i { Neighbours(d, s, i + 1); }
    }
    if r != [] {
      Neighbours(d, s, 0);
      Neighbours(d, s, |s| - 1);
      if |s| > 1 { Neighbours(d, s, 1); Neighbours(d, s, |s| - 2); }
    }
  }

  /** The two pointer fields agree on the nodes of `s`. */
  predicate SameOn<T(==)>(d: Dll<T>, d': Dll<T>, s: seq<T>) {
    forall i :: 0 <= i < |s| ==>
      && (s[i] in d.next <==> s[i] in d'.next) && (s[i] in d.next ==> d'.next[s[i]] == d.next[s[i]])
      && (s[i] in d.prev <==> s[i] in d'.prev) && (s[i] in d.prev ==> d'.prev[s[i]] == d.prev[s[i]])
  }

  lemma ChainedFrame<T>(d: Dll<T>, d': Dll<T>, s: seq<T>)
    requires Chained(d, s) && SameOn(d, d', s)
    ensures Chained(d', s)
  {
    forall i | 0 <= i < |s| - 1
      ensures LinkAt(d', s, i)
    {
      assert LinkAt(d, s, i);
    }
  }

  /** Unlinking a node of one list leaves a disjoint list alone. */
  lemma UnlinkElsewhere<T>(d: Dll<T>, s: seq<T>, i: nat, o: seq<T>)
    requires Chained(d, s) && i < |s| && Chained(d, o)
    requires forall k, l :: 0 <= k < |s| && 0 <= l < |o| ==> s[k] != o[l]
    ensures SameOn(d, Unlink(d, s[i]), o) && Chained(Unlink(d, s[i]), o)
  {
    Neighbours(d, s, i);
    ChainedFrame(d, Unlink(d, s[i]), o);
  }

  lemma PushElsewhere<T>(d: Dll<T>, y: T, x: T, o: seq<T>)
    requires Chained(d, o) && y !in o && x !in o
    ensures Chained(Push(d, y, x), o)
  {
    ChainedFrame(d, Push(d, y, x), o);
  }

  lemma CutElsewhere<T>(d: Dll<T>, y: T, o: seq<T>)
    requires Chained(d, o) && y !in o
    ensures Chained(Cut(d, y), o)
  {
    ChainedFrame(d, Cut(d, y), o);
  }

  /** `x` is put between `y` and its successor (predecessor). */
  function InsertAfter<T(==)>(d: Dll<T>, y: T, x: T): Dll<T> {
    if y in d.next then Dll(d.next[x := d.next[y]][y := x], d.prev[d.next[y] := x][x := y])
    else Dll((d.next - {x})[y := x], d.prev[x := y])
  }

  function InsertBefore<T(==)>(d: Dll<T>, y: T, x: T): Dll<T> {
    if y in d.prev then Dll(d.next[d.prev[y] := x][x := y], d.prev[x := d.prev[y]][y := x])
    else Dll(d.next[x := y], (d.prev - {x})[y := x])
  }

  function InsertAt<T>(s: seq<T>, i: nat, x: T): (r: seq<T>)
    requires i <= |s|
    ensures |r| == |s| + 1
    ensures forall k :: 0 <= k < |r| ==> r[k] == if k < i then s[k] else if k == i then x else s[k - 1]
  {
    s[..i] + [x] + s[i..]
  }

  lemma InsertAfterChained<T>(d: Dll<T>, s: seq<T>, i: nat, x: T)
    requires Chained(d, s) && Distinct(s) && i < |s| && x !in s
    ensures Chained(InsertAfter(d, s[i], x), InsertAt(s, i + 1, x)) && Distinct(InsertAt(s, i + 1, x))
  {
    var d', r := InsertAfter(d, s[i], x), InsertAt(s, i + 1, x);
    Neighbours(d, s, i);
    forall k | 0 <= k < |r| - 1
      ensures LinkAt(d', r, k)
    {
      if k < i { Neighbours(d, s, k); Neighbours(d, s, k + 1); }
      if k == i + 1 { Neighbours(d, s, k); }
      if k > i + 1 { Neighbours(d, s, k - 1); Neighbours(d, s, k); }
    }
    Neighbours(d, s, 0);
    Neighbours(d, s, |s| - 1);
  }

  lemma InsertBeforeChained<T>(d: Dll<T>, s: seq<T>, i: nat, x: T)
    requires Chained(d, s) && Distinct(s) && i < |s| && x !in s
    ensures Chained(InsertBefore(d, s[i], x), InsertAt(s, i, x)) && Distinct(InsertAt(s, i, x))
  {
    var d', r := InsertBefore(d, s[i], x), InsertAt(s, i, x);
    Neighbours(d, s, i);
    forall k | 0 <= k < |r| - 1
      ensures LinkAt(d', r, k)
    {
      if k + 1 < i { Neighbours(d, s, k); Neighbours(d, s, k + 1); }
      if k + 1 == i { Neighbours(d, s, k); }
      if k > i { Neighbours(d, s, k - 1); Neighbours(d, s, k); }
    }
    Neighbours(d, s, 0);
    Neighbours(d, s, |s| - 1);
  }
}
