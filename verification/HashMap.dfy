/** Lookup, insertion, deletion and expansion in the hash table (hashtab.h), refining a finite map. */
module HashMap {
  import opened Counting
  import opened HashTable

  /** An entry is known by its address; `id` stands for the rest of it. */
  datatype Elem = Elem(key: nat, id: nat)
  datatype Slot = Empty | Deleted | Full(elem: Elem)
  datatype Option<T> = None | Some(value: T)

  type Hash = nat -> nat

  /** The slot that the t-th probe for `key` looks at. */
  function At(hash: Hash, key: nat, n: nat, t: nat): (r: nat)
    requires n >= 7
    ensures r < n
  {
    var h := Wrap(hash(key));
    Probe(h % n, 1 + h % (n - 2), n, t)
  }

  // ---------- What a table of slots stands for ----------

  predicate BusyBefore(s: seq<Slot>, hash: Hash, key: nat, t: nat)
    requires |s| >= 7
  {
    forall u: nat :: u < t ==> s[At(hash, key, |s|, u)] != Empty
  }

  predicate PlacedAt(s: seq<Slot>, hash: Hash, i: nat, t: nat)
    requires |s| >= 7 && i < |s| && s[i].Full?
  {
    t < |s| && At(hash, s[i].elem.key, |s|, t) == i && BusyBefore(s, hash, s[i].elem.key, t)
  }

  /** No empty slot comes before an element on its probe sequence. */
  ghost predicate Placed(s: seq<Slot>, hash: Hash, i: nat)
    requires |s| >= 7 && i < |s|
  {
    s[i].Full? ==> exists t: nat :: PlacedAt(s, hash, i, t)
  }

  ghost predicate Sound(s: seq<Slot>, hash: Hash) {
    |s| >= 7 && forall i: nat {:trigger Placed(s, hash, i)} :: i < |s| ==> Placed(s, hash, i)
  }

  predicate HoldsKey(s: seq<Slot>, i: nat, key: nat) {
    i < |s| && s[i].Full? && s[i].elem.key == key
  }

  /** The elements in the slots are those of `m`, each once. */
  ghost predicate Maps(s: seq<Slot>, m: map<nat, Elem>) {
    && (forall i: nat :: i < |s| && s[i].Full? ==> s[i].elem.key in m && m[s[i].elem.key] == s[i].elem)
    && (forall k :: k in m ==> exists i: nat :: HoldsKey(s, i, k))
    && (forall i: nat, j: nat, k: nat :: HoldsKey(s, i, k) && HoldsKey(s, j, k) ==> i == j)
  }

  /** The first `t` probes for `key` found neither it nor an empty slot. */
  predicate Searched(s: seq<Slot>, hash: Hash, key: nat, t: nat)
    requires |s| >= 7
  {
    forall u: nat :: u < t ==> s[At(hash, key, |s|, u)] != Empty && !HoldsKey(s, At(hash, key, |s|, u), key)
  }

  lemma BeforeEmpty(s: seq<Slot>, hash: Hash, key: nat, i: nat, t: nat) returns (u: nat)
    requires Sound(s, hash) && HoldsKey(s, i, key) && s[At(hash, key, |s|, t)] == Empty
    ensures u < t && At(hash, key, |s|, u) == i
  {
    assert Placed(s, hash, i);
    u :| PlacedAt(s, hash, i, u);
  }

  /** An empty slot ends a search for good: deleted slots hide nothing. */
  lemma Absent(s: seq<Slot>, hash: Hash, m: map<nat, Elem>, key: nat, t: nat)
    requires Sound(s, hash) && Maps(s, m) && Searched(s, hash, key, t) && s[At(hash, key, |s|, t)] == Empty
    ensures key !in m
  {
    if i: nat :| HoldsKey(s, i, key) {
      var u := BeforeEmpty(s, hash, key, i, t);
    }
  }

  /** Some probe meets an empty slot. */
  lemma MeetsEmpty(s: seq<Slot>, hash: Hash, key: nat, e: nat) returns (t: nat)
    requires Prime(|s|) && |s| >= 7 && e < |s| && s[e] == Empty
    ensures t < |s| && s[At(hash, key, |s|, t)] == Empty
  {
    var h := Wrap(hash(key));
    t := Covers(h % |s|, 1 + h % (|s| - 2), |s|, e);
  }

  // ---------- Updates ----------

  lemma StillPlaced(s: seq<Slot>, s': seq<Slot>, hash: Hash, i: nat)
    requires |s| == |s'| >= 7 && i < |s| && Placed(s, hash, i) && s[i].Full? && s'[i].Full? && s[i].elem.key == s'[i].elem.key
    requires forall j :: 0 <= j < |s| && s'[j] == Empty ==> s[j] == Empty
    ensures Placed(s', hash, i)
  {
    var t: nat :| PlacedAt(s, hash, i, t);
    assert PlacedAt(s', hash, i, t);
  }

  lemma PutSound(s: seq<Slot>, hash: Hash, i: nat, e: Elem, t: nat)
    requires Sound(s, hash) && i < |s| && t < |s| && At(hash, e.key, |s|, t) == i && BusyBefore(s, hash, e.key, t)
    ensures Sound(s[i := Full(e)], hash)
  {
    var s' := s[i := Full(e)];
    forall j: nat | j < |s'| ensures Placed(s', hash, j) {
      if j == i {
        assert PlacedAt(s', hash, i, t);
      } else if s[j].Full? {
        assert Placed(s, hash, j);
        StillPlaced(s, s', hash, j);
      }
    }
  }

  lemma OnlyHere(s: seq<Slot>, m: map<nat, Elem>, i: nat, key: nat, j: nat)
    requires Maps(s, m) && i < |s| && j < |s| && i != j && if s[i].Full? then s[i].elem.key == key else key !in m
    ensures !HoldsKey(s, j, key)
  {
    assert s[i].Full? ==> HoldsKey(s, i, key);
  }

  lemma PutMaps(s: seq<Slot>, m: map<nat, Elem>, i: nat, e: Elem)
    requires Maps(s, m) && i < |s| && if s[i].Full? then s[i].elem.key == e.key else e.key !in m
    ensures Maps(s[i := Full(e)], m[e.key := e])
  {
    var s', m' := s[i := Full(e)], m[e.key := e];
    assert HoldsKey(s', i, e.key);
    forall k | k in m' && k != e.key ensures exists j: nat :: HoldsKey(s', j, k) {
      var j: nat :| HoldsKey(s, j, k);
      assert HoldsKey(s', j, k);
    }
    forall j: nat, k: nat | HoldsKey(s', j, k) && j != i ensures HoldsKey(s, j, k) && k != e.key && k in m && m[k] == s[j].elem {
      assert HoldsKey(s, j, k);
      OnlyHere(s, m, i, e.key, j);
    }
    forall j: nat | j < |s'| && s'[j].Full? ensures s'[j].elem.key in m' && m'[s'[j].elem.key] == s'[j].elem {
      assert HoldsKey(s', j, s'[j].elem.key);
    }
  }

  lemma DropSound(s: seq<Slot>, hash: Hash, i: nat)
    requires Sound(s, hash) && i < |s|
    ensures Sound(s[i := Deleted], hash)
  {
    var s' := s[i := Deleted];
    forall j: nat | j < |s'| ensures Placed(s', hash, j) {
      if j != i && s[j].Full? {
        assert Placed(s, hash, j);
        StillPlaced(s, s', hash, j);
      }
    }
  }

  lemma DropMaps(s: seq<Slot>, m: map<nat, Elem>, i: nat, key: nat)
    requires Maps(s, m) && HoldsKey(s, i, key)
    ensures Maps(s[i := Deleted], m - {key})
  {
    var s', m' := s[i := Deleted], m - {key};
    forall k | k in m' ensures exists j: nat :: HoldsKey(s', j, k) {
      var j: nat :| HoldsKey(s, j, k);
      assert HoldsKey(s', j, k);
    }
    forall j: nat, k: nat | HoldsKey(s', j, k) ensures HoldsKey(s, j, k) && k in m' && m'[k] == s[j].elem {
      assert HoldsKey(s, j, k);
      OnlyHere(s, m, i, key, j);
    }
    forall j: nat | j < |s'| && s'[j].Full? ensures s'[j].elem.key in m' && m'[s'[j].elem.key] == s'[j].elem {
      assert HoldsKey(s', j, s'[j].elem.key);
    }
  }

  // ---------- Counting ----------

  function Busy(s: seq<Slot>): set<nat> {
    set i: nat | i < |s| && s[i] != Empty
  }

  function DeletedIn(s: seq<Slot>): set<nat> {
    set i: nat | i < |s| && s[i] == Deleted
  }

  function FullIn(s: seq<Slot>): set<nat> {
    set i: nat | i < |s| && s[i].Full?
  }

  lemma BusySplit(s: seq<Slot>)
    ensures |Busy(s)| == |DeletedIn(s)| + |FullIn(s)|
  {
    assert Busy(s) == DeletedIn(s) + FullIn(s);
  }

  lemma BusyPut(s: seq<Slot>, i: nat, x: Slot)
    requires i < |s| && x != Empty
    ensures |Busy(s[i := x])| == |Busy(s)| + (if s[i] == Empty then 1 else 0)
  {
    assert Busy(s[i := x]) == Busy(s) + {i};
    assert i in Busy(s) <==> s[i] != Empty;
    if s[i] != Empty { assert Busy(s) + {i} == Busy(s); }
  }

  lemma CountPut(s: seq<Slot>, i: nat, x: Slot)
    requires i < |s| && x != Empty
    ensures |Busy(s[i := x])| == |Busy(s)| + (if s[i] == Empty then 1 else 0)
    ensures |DeletedIn(s[i := x])| == |DeletedIn(s)| + (if x == Deleted then 1 else 0) - (if s[i] == Deleted then 1 else 0)
  {
    BusyPut(s, i, x);
    var d, d' := DeletedIn(s), DeletedIn(s[i := x]);
    assert d' - {i} == d - {i};
    assert i in d <==> s[i] == Deleted;
    assert i in d' <==> x == Deleted;
    assert |d - {i}| == |d| - (if i in d then 1 else 0);
    assert |d' - {i}| == |d'| - (if i in d' then 1 else 0);
  }

  /** Fewer busy slots than slots leave an empty one. */
  lemma EmptyExists(s: seq<Slot>) returns (e: nat)
    requires |Busy(s)| < |s|
    ensures e < |s| && s[e] == Empty
  {
    var all := Below(|s|);
    assert Busy(s) <= all && Busy(s) != all;
    e :| e in all && e !in Busy(s);
  }

  // ---------- Choosing a size ----------

  /** `row` is the least one whose prime is not below `n`. */
  predicate IsRowFor(n: int, row: nat) {
    row < |PrimeTab| && n <= PrimeTab[row].prime && forall j: nat :: j < row ==> PrimeTab[j].prime < n
  }

  /** The row that a table for `n` elements uses holds a prime. */
  ghost predicate RowPrime(n: int) {
    forall row: nat :: IsRowFor(n, row) ==> Prime(PrimeTab[row].prime)
  }

  lemma Adjacent(i: nat)
    requires i < 29
    ensures PrimeTab[i].prime < PrimeTab[i + 1].prime
  {
  }

  lemma {:induction false} Increasing(i: nat, j: nat)
    requires i < j < 30
    ensures PrimeTab[i].prime < PrimeTab[j].prime
  {
    Adjacent(j - 1);
    if i < j - 1 { Increasing(i, j - 1); }
  }

  /** higher_prime_index; the search ends at 30 where the source aborts. */
  method HigherPrimeIndex(n: nat) returns (low: nat)
    ensures low <= 30 && (low < 30 ==> IsRowFor(n, low))
    ensures forall j: nat :: j < low ==> PrimeTab[j].prime < n
  {
    low := 0;
    var high := 30;
    while low != high
      invariant low <= high <= 30
      invariant high < 30 ==> n <= PrimeTab[high].prime
      invariant forall j: nat :: j < low ==> PrimeTab[j].prime < n
    {
      var mid := low + (high - low) / 2;
      if n > PrimeTab[mid].prime {
        forall j: nat | j < mid ensures PrimeTab[j].prime < n { Increasing(j, mid); }
        low := mid + 1;
      } else {
        high := mid;
      }
    }
  }

  /** htab_mod and htab_mod_m2. */
  method Hashes(h: nat, row: nat) returns (index: nat, step: nat)
    requires row < 30 && h < Word
    ensures index == h % PrimeTab[row].prime && step == 1 + h % (PrimeTab[row].prime - 2)
    ensures PrimeTab[row].prime >= 7
  {
    var r := PrimeTab[row];
    EveryRow(row);
    MulShiftExact(h, r.prime, r.inv, r.shift);
    MulShiftExact(h, r.prime - 2, r.invM2, r.shift);
    index := MulShift(h, r.prime, r.inv, r.shift);
    step := 1 + MulShift(h, r.prime - 2, r.invM2, r.shift);
  }

  /** The table's fields and its array agree on the size. */
  ghost predicate Sized(n: nat, row: nat) {
    row < 29 && n == PrimeTab[row].prime && Prime(n) && 7 <= n <= 0x8000_0000
  }

  lemma RowSized(row: nat)
    requires row < 29 && Prime(PrimeTab[row].prime)
    ensures Sized(PrimeTab[row].prime, row)
  {
    EveryRow(row);
    if row < 28 { Increasing(row, 28); }
  }

  lemma FirstProbe(hash: Hash, key: nat, n: nat)
    requires n >= 7
    ensures At(hash, key, n, 0) == Wrap(hash(key)) % n
  {
    RemainderPlus(Wrap(hash(key)), 0, n);
  }

  lemma StepIs(hash: Hash, key: nat, n: nat, t: nat)
    requires 7 <= n <= 0x8000_0000
    ensures NextIndex(At(hash, key, n, t), 1 + Wrap(hash(key)) % (n - 2), n) == At(hash, key, n, t + 1)
  {
    ProbeStep(Wrap(hash(key)) % n, 1 + Wrap(hash(key)) % (n - 2), n, t);
  }

  /** The same for any sequence of slots. */
  predicate PathSearched(s: seq<Slot>, path: seq<nat>, key: nat, t: nat)
    requires t <= |path|
  {
    forall u :: 0 <= u < t ==> path[u] < |s| && s[path[u]] != Empty && !HoldsKey(s, path[u], key)
  }

  /** `path` is the sequence of slots that the loop visits. */
  predicate Follows(path: seq<nat>, step: nat, n: nat) {
    && (forall u :: 0 <= u < |path| ==> path[u] < n)
    && (forall u :: 0 <= u < |path| - 1 ==> NextIndex(path[u], step, n) == path[u + 1])
  }

  /** The common loop of htab_find, htab_find_slot and find_empty_slot_for_expand: probe up to the key or an
      empty slot, remembering the first deleted slot. */
  method ProbeLoop(entries: array<Slot>, key: nat, start: nat, step: nat, ghost path: seq<nat>)
      returns (index: nat, firstDeleted: Option<nat>, ghost t: nat, ghost td: nat)
    requires |path| > 0 && path[0] == start && Follows(path, step, entries.Length) && entries[path[|path| - 1]] == Empty
    ensures t < |path| && index == path[t] && index < entries.Length && PathSearched(entries[..], path, key, t)
    ensures entries[index] == Empty || HoldsKey(entries[..], index, key)
    ensures firstDeleted.Some? ==> td < t && firstDeleted.value == path[td] < entries.Length && entries[firstDeleted.value] == Deleted
  {
    index, firstDeleted, t, td := start, None, 0, 0;
    while entries[index] != Empty && !(entries[index].Full? && entries[index].elem.key == key)
      invariant t < |path| && index == path[t] && PathSearched(entries[..], path, key, t)
      invariant firstDeleted.Some? ==> td < t && firstDeleted.value == path[td] && entries[firstDeleted.value] == Deleted
      decreases |path| - t
    {
      if entries[index] == Deleted && firstDeleted == None {
        firstDeleted, td := Some(index), t;
      }
      index := NextIndex(index, step, entries.Length);
      t := t + 1;
    }
  }

  /** The first `k` probes for `key`. */
  ghost function Probes(hash: Hash, key: nat, n: nat, k: nat): (path: seq<nat>)
    requires n >= 7
    ensures |path| == k && forall u :: 0 <= u < k ==> path[u] == At(hash, key, n, u)
  {
    seq(k, u requires 0 <= u < k => At(hash, key, n, u))
  }

  lemma ProbesFollow(hash: Hash, key: nat, n: nat, k: nat)
    requires 7 <= n <= 0x8000_0000
    ensures Follows(Probes(hash, key, n, k), 1 + Wrap(hash(key)) % (n - 2), n)
  {
    var path, step := Probes(hash, key, n, k), 1 + Wrap(hash(key)) % (n - 2);
    forall u | 0 <= u < |path| - 1 ensures NextIndex(path[u], step, n) == path[u + 1] { StepIs(hash, key, n, u); }
  }

  lemma SearchedPath(s: seq<Slot>, hash: Hash, key: nat, k: nat, t: nat)
    requires |s| >= 7 && t <= k && PathSearched(s, Probes(hash, key, |s|, k), key, t)
    ensures Searched(s, hash, key, t)
  {
    var path := Probes(hash, key, |s|, k);
    forall u: nat | u < t ensures s[At(hash, key, |s|, u)] != Empty && !HoldsKey(s, At(hash, key, |s|, u), key) {
      assert path[u] == At(hash, key, |s|, u);
    }
  }

  /** A search for `key` in the table. */
  method Search(entries: array<Slot>, row: nat, hash: Hash, key: nat)
      returns (index: nat, firstDeleted: Option<nat>, ghost t: nat, ghost td: nat)
    requires Sized(entries.Length, row) && |Busy(entries[..])| < entries.Length
    ensures t < entries.Length && index == At(hash, key, entries.Length, t) && Searched(entries[..], hash, key, t)
    ensures entries[index] == Empty || HoldsKey(entries[..], index, key)
    ensures firstDeleted.Some? ==>
      td < t && firstDeleted.value == At(hash, key, entries.Length, td) && entries[firstDeleted.value] == Deleted
  {
    ghost var n := entries.Length;
    ghost var e := EmptyExists(entries[..]);
    ghost var last := MeetsEmpty(entries[..], hash, key, e);
    ghost var path := Probes(hash, key, n, last + 1);
    var start, step := Hashes(Wrap(hash(key)), row);
    FirstProbe(hash, key, n);
    ProbesFollow(hash, key, n, last + 1);
    index, firstDeleted, t, td := ProbeLoop(entries, key, start, step, path);
    SearchedPath(entries[..], hash, key, last + 1, t);
  }

  // ---------- Rebuilding ----------

  predicate NoneDeleted(s: seq<Slot>) {
    forall i :: 0 <= i < |s| ==> s[i] != Deleted
  }

  /** `m` restricted to the elements among the slots of `s`. */
  ghost predicate Submap(s: seq<Slot>, m: map<nat, Elem>, part: map<nat, Elem>) {
    && (forall i: nat :: i < |s| && s[i].Full? ==> s[i].elem.key in part)
    && (forall k :: k in part ==> (exists i: nat :: HoldsKey(s, i, k)) && k in m && part[k] == m[k])
  }

  lemma SubmapStep(s: seq<Slot>, m: map<nat, Elem>, part: map<nat, Elem>, p: nat)
    requires Maps(s, m) && p < |s| && Submap(s[..p], m, part)
    ensures s[p].Full? ==> s[p].elem.key !in part && Submap(s[..p + 1], m, part[s[p].elem.key := s[p].elem])
    ensures !s[p].Full? ==> Submap(s[..p + 1], m, part)
  {
    forall k, i: nat | HoldsKey(s[..p], i, k) ensures HoldsKey(s[..p + 1], i, k) && HoldsKey(s, i, k) { }
    if s[p].Full? {
      assert HoldsKey(s, p, s[p].elem.key) && HoldsKey(s[..p + 1], p, s[p].elem.key);
    }
  }

  lemma SubmapAll(s: seq<Slot>, m: map<nat, Elem>, part: map<nat, Elem>)
    requires Maps(s, m) && Submap(s, m, part)
    ensures part == m
  {
    forall k | k in m ensures k in part {
      var i: nat :| HoldsKey(s, i, k);
    }
  }

  lemma FullGrows(s: seq<Slot>, p: nat)
    requires p < |s|
    ensures |FullIn(s[..p + 1])| == |FullIn(s[..p])| + (if s[p].Full? then 1 else 0)
    ensures |FullIn(s[..p + 1])| <= |FullIn(s)|
  {
    assert FullIn(s[..p + 1]) == if s[p].Full? then FullIn(s[..p]) + {p} else FullIn(s[..p]);
    assert |FullIn(s) - FullIn(s[..p + 1])| == |FullIn(s)| - |FullIn(s[..p + 1])| by { assert FullIn(s[..p + 1]) <= FullIn(s); }
  }

  lemma AllEmpty(s: seq<Slot>, hash: Hash)
    requires |s| >= 7 && forall i :: 0 <= i < |s| ==> s[i] == Empty
    ensures Sound(s, hash) && Maps(s, map[]) && NoneDeleted(s) && Busy(s) == {} && DeletedIn(s) == {}
  {
  }

  lemma SearchedBusy(s: seq<Slot>, hash: Hash, key: nat, t: nat)
    requires |s| >= 7 && Searched(s, hash, key, t)
    ensures BusyBefore(s, hash, key, t)
  {
  }

  /** One element of the old table goes to an empty slot of the new one. */
  method Reinsert(target: array<Slot>, row: nat, hash: Hash, e: Elem, ghost part: map<nat, Elem>)
    requires Sized(target.Length, row) && |Busy(target[..])| < target.Length && NoneDeleted(target[..])
    requires Sound(target[..], hash) && Maps(target[..], part) && e.key !in part
    modifies target
    ensures NoneDeleted(target[..]) && Sound(target[..], hash) && Maps(target[..], part[e.key := e])
    ensures |Busy(target[..])| == old(|Busy(target[..])|) + 1
  {
    ghost var s := target[..];
    var index, _, t, _ := Search(target, row, hash, e.key);
    SearchedBusy(s, hash, e.key, t);
    PutSound(s, hash, index, e, t);
    PutMaps(s, part, index, e);
    CountPut(s, index, Full(e));
    target[index] := Full(e);
    assert target[..] == s[index := Full(e)];
  }

  /** Copy the elements of `s` into the empty `target`. */
  method Refill(s: seq<Slot>, target: array<Slot>, row: nat, hash: Hash, ghost m: map<nat, Elem>)
    requires Sized(target.Length, row) && Maps(s, m) && |FullIn(s)| < target.Length
    requires forall i :: 0 <= i < target.Length ==> target[i] == Empty
    modifies target
    ensures NoneDeleted(target[..]) && Sound(target[..], hash) && Maps(target[..], m)
    ensures |Busy(target[..])| == |FullIn(s)|
  {
    AllEmpty(target[..], hash);
    ghost var part: map<nat, Elem> := map[];
    var p := 0;
    assert FullIn(s[..0]) == {};
    while p < |s|
      invariant p <= |s| && Submap(s[..p], m, part)
      invariant NoneDeleted(target[..]) && Sound(target[..], hash) && Maps(target[..], part)
      invariant |Busy(target[..])| == |FullIn(s[..p])|
    {
      SubmapStep(s, m, part, p);
      FullGrows(s, p);
      if s[p].Full? {
        Reinsert(target, row, hash, s[p].elem, part);
        part := part[s[p].elem.key := s[p].elem];
      }
      p := p + 1;
    }
    assert s[..p] == s;
    SubmapAll(s, m, part);
  }

  /** The largest prime below 2^31 in the table. */
  const MaxPrime: nat := 2147483647

  /** A search for a row up to 2^31 finds one, of the prime that is asked for. */
  lemma RowFound(n: int, low: nat)
    requires n <= MaxPrime && low <= 30 && (low < 30 ==> IsRowFor(n, low)) && RowPrime(n)
    requires forall j: nat :: j < low ==> PrimeTab[j].prime < n
    ensures low < 29 && n <= PrimeTab[low].prime && Sized(PrimeTab[low].prime, low)
  {
    assert PrimeTab[28].prime == MaxPrime;
    assert low < 29;
    RowSized(low);
  }

  lemma SizeFacts(osize: nat, row: nat)
    requires Sized(osize, row)
    ensures osize % 2 == 1 && 7 <= osize <= MaxPrime
  {
    assert osize % 2 != 0;
    assert PrimeTab[28].prime == MaxPrime;
    if row < 28 { Increasing(row, 28); }
  }

  lemma HalfFits(elts: nat, osize: nat)
    requires osize % 2 == 1 && elts * 2 <= osize
    ensures elts * 2 <= osize - 1
  {
  }

  /** The row that a search for `n` elements finds. */
  method FindRow(n: nat) returns (low: nat)
    requires RowPrime(n) && n <= MaxPrime
    ensures low < 29 && IsRowFor(n, low) && Sized(PrimeTab[low].prime, low)
  {
    low := HigherPrimeIndex(n);
    RowFound(n, low);
  }

  /** The size an expansion chooses holds the elements at half occupancy. */
  method NewRow(elts: nat, osize: nat, ghost row: nat) returns (low: nat)
    requires Sized(osize, row) && RowPrime(NewSize(elts, osize)) && elts * 2 <= MaxPrime
    ensures low < 29 && elts * 2 <= PrimeTab[low].prime && Sized(PrimeTab[low].prime, low)
    ensures if elts * 2 > osize || (elts * 8 < osize && osize > 32) then IsRowFor(elts * 2, low) else low == row
  {
    SizeFacts(osize, row);
    var size := osize - 1;
    if elts * 2 > osize || (elts * 8 < osize && osize > 32) {
      size := elts * 2;
    } else {
      HalfFits(elts, osize);
    }
    low := FindRow(size);
    if size == osize - 1 && elts * 2 <= osize { SameRow(row, low); }
  }

  /** Asking for one element less than the size gives the same row. */
  lemma SameRow(row: nat, low: nat)
    requires row < 29 && IsRowFor(PrimeTab[row].prime - 1, low)
    ensures low == row
  {
    if low < row {
      Increasing(low, row);
      Apart(low);
      if low + 1 < row { Increasing(low + 1, row); }
    }
  }

  /** Neighbouring sizes are not consecutive numbers. */
  lemma Apart(i: nat)
    requires i < 29
    ensures PrimeTab[i].prime + 1 < PrimeTab[i + 1].prime
  {
  }

  /** The size that an expansion asks for. */
  function NewSize(elts: int, osize: int): int {
    if elts * 2 > osize || (elts * 8 < osize && osize > 32) then elts * 2 else osize - 1
  }

  class Table {
    const hash: Hash
    var entries: array<Slot>
    var row: nat
    var nElements: nat
    var nDeleted: nat
    ghost var contents: map<nat, Elem>

    ghost predicate Valid()
      reads this, entries
    {
      && Sized(entries.Length, row)
      && Sound(entries[..], hash) && Maps(entries[..], contents)
      && nElements == |Busy(entries[..])| < entries.Length && nDeleted == |DeletedIn(entries[..])|
    }

    /** htab_create. */
    constructor (hash: Hash, size: nat)
      requires RowPrime(size) && size <= MaxPrime
      ensures Valid() && contents == map[] && fresh(entries) && entries.Length >= size
    {
      var low := FindRow(size);
      this.hash := hash;
      var a := new Slot[PrimeTab[low].prime](_ => Empty);
      entries, row, nElements, nDeleted, contents := a, low, 0, 0, map[];
      AllEmpty(a[..], hash);
    }

    /** htab_find. */
    method Find(key: nat) returns (r: Option<Elem>)
      requires Valid()
      ensures r == if key in contents then Some(contents[key]) else None
    {
      var index, _, t, _ := Search(entries, row, hash, key);
      if entries[index] == Empty {
        Absent(entries[..], hash, contents, key, t);
        r := None;
      } else {
        r := Some(entries[index].elem);
      }
    }

    /** htab_expand: the same elements, no deleted slots, at most half full. */
    method Expand()
      requires Valid() && (nElements - nDeleted) * 2 <= MaxPrime
      requires RowPrime(NewSize(nElements - nDeleted, entries.Length))
      modifies this`entries, this`row, this`nElements, this`nDeleted
      ensures Valid() && fresh(entries) && nDeleted == 0 && nElements == old(nElements - nDeleted) && nElements * 2 <= entries.Length
      ensures if nElements * 2 > old(entries.Length) || (nElements * 8 < old(entries.Length) && old(entries.Length) > 32)
              then IsRowFor(nElements * 2, row) else entries.Length == old(entries.Length)
    {
      BusySplit(entries[..]);
      var elts := nElements - nDeleted;
      var low := NewRow(elts, entries.Length, row);
      var a := new Slot[PrimeTab[low].prime](_ => Empty);
      Refill(entries[..], a, low, hash, contents);
      assert DeletedIn(a[..]) == {};
      entries, row, nElements, nDeleted := a, low, elts, 0;
    }

    /** htab_find_slot with NO_INSERT and htab_clear_slot. */
    method Delete(key: nat) returns (was: Option<Elem>)
      requires Valid()
      modifies this`nDeleted, this`contents, entries
      ensures Valid() && contents == old(contents) - {key}
      ensures was == if key in old(contents) then Some(old(contents)[key]) else None
    {
      ghost var s := entries[..];
      var index, _, t, _ := Search(entries, row, hash, key);
      if entries[index] == Empty {
        Absent(s, hash, contents, key, t);
        was := None;
      } else {
        was := Some(entries[index].elem);
        DropSound(s, hash, index);
        DropMaps(s, contents, index, key);
        CountPut(s, index, Deleted);
        entries[index] := Deleted;
        assert entries[..] == s[index := Deleted];
        nDeleted := nDeleted + 1;
      }
      contents := contents - {key};
    }

    /** The slot that htab_find_slot returns for INSERT receives the element. */
    method Put(e: Elem) returns (was: Option<Elem>)
      requires Valid() && nElements + 1 < entries.Length
      modifies this`nElements, this`nDeleted, this`contents, entries
      ensures Valid() && contents == old(contents)[e.key := e]
      ensures was == if e.key in old(contents) then Some(old(contents)[e.key]) else None
    {
      ghost var s := entries[..];
      var index, deleted, t, td := Search(entries, row, hash, e.key);
      SearchedBusy(s, hash, e.key, t);
      was := None;
      if entries[index].Full? {
        was := Some(entries[index].elem);
      } else {
        Absent(s, hash, contents, e.key, t);
        if deleted.Some? {
          assert deleted.value in DeletedIn(s);
          nDeleted := nDeleted - 1;
          index, t := deleted.value, td;
        } else {
          nElements := nElements + 1;
        }
      }
      PutSound(s, hash, index, e, t);
      PutMaps(s, contents, index, e);
      CountPut(s, index, Full(e));
      entries[index] := Full(e);
      assert entries[..] == s[index := Full(e)];
      contents := contents[e.key := e];
    }

    /** htab_find_slot with INSERT, and the write of the caller; an expansion comes first at three quarters. */
    method Insert(e: Elem) returns (was: Option<Elem>)
      requires Valid() && (nElements - nDeleted) * 2 <= MaxPrime
      requires entries.Length * 3 <= nElements * 4 ==> RowPrime(NewSize(nElements - nDeleted, entries.Length))
      modifies this, entries
      ensures Valid() && contents == old(contents)[e.key := e]
      ensures entries != old(entries) <==> old(entries.Length * 3 <= nElements * 4)
      ensures was == if e.key in old(contents) then Some(old(contents)[e.key]) else None
    {
      if entries.Length * 3 <= nElements * 4 {
        Expand();
      }
      was := Put(e);
    }
  }

  // ---------- Rows that are prime ----------

  /** Trial division. */
  lemma PrimeBy(p: nat, r: nat)
    requires p >= 2 && p < (r + 1) * (r + 1) && forall d :: 2 <= d <= r ==> p % d != 0
    ensures Prime(p)
  {
    forall d | 2 <= d < p ensures p % d != 0 {
      if d > r && p % d == 0 { Cofactor(p, d, r); }
    }
  }

  lemma Cofactor(p: nat, d: nat, r: nat)
    requires r < d < p < (r + 1) * (r + 1) && p % d == 0
    ensures 2 <= p / d <= r && p % (p / d) == 0
  {
    var q := p / d;
    assert p == q * d;
    CofactorSmall(p, d, r, q);
    assert q * d == d * q;
    Remainder(d, q);
  }

  lemma CofactorSmall(p: nat, d: nat, r: nat, q: nat)
    requires r < d < p < (r + 1) * (r + 1) && p == q * d
    ensures 2 <= q <= r
  {
    if q > r { Product(r + 1, q, r + 1, d); }
    if q < 2 { Product(q, 1, d, d); }
  }

  lemma Product(a: nat, b: nat, c: nat, d: nat)
    requires a <= b && c <= d
    ensures a * c <= b * d
  {
    ScaleAtMost(a, b, c);
    ScaleAtMost(c, d, b);
    assert c * b == b * c && d * b == b * d;
  }

  lemma Remainder(k: nat, q: nat)
    requires q > 0
    ensures k * q % q == 0
  {
    MultipleOf(k, q);
  }

  lemma Prime7()
    ensures Prime(7)
  {
    forall d | 2 <= d <= 2 ensures 7 % d != 0 {
      assert d == 2;
    }
    PrimeBy(7, 2);
  }

  lemma Prime13()
    ensures Prime(13)
  {
    forall d | 2 <= d <= 3 ensures 13 % d != 0 {
      assert d == 2 || d == 3;
    }
    PrimeBy(13, 3);
  }

  lemma Prime31()
    ensures Prime(31)
  {
    forall d | 2 <= d <= 5 ensures 31 % d != 0 {
      assert d == 2 || d == 3 || d == 4 || d == 5;
    }
    PrimeBy(31, 5);
  }

  lemma Prime61()
    ensures Prime(61)
  {
    forall d | 2 <= d <= 7 ensures 61 % d != 0 {
      assert d == 2 || d == 3 || d == 4 || d == 5 || d == 6 || d == 7;
    }
    PrimeBy(61, 7);
  }

  lemma Prime127()
    ensures Prime(127)
  {
    forall d | 2 <= d <= 11 ensures 127 % d != 0 {
      assert d == 2 || d == 3 || d == 4 || d == 5 || d == 6 || d == 7 || d == 8 || d == 9 || d == 10 || d == 11;
    }
    PrimeBy(127, 11);
  }

  lemma Prime251()
    ensures Prime(251)
  {
    forall d | 2 <= d <= 15 ensures 251 % d != 0 {
      assert d == 2 || d == 3 || d == 4 || d == 5 || d == 6 || d == 7 || d == 8 || d == 9 || d == 10 ||
        d == 11 || d == 12 || d == 13 || d == 14 || d == 15;
    }
    PrimeBy(251, 15);
  }

  lemma Prime509()
    ensures Prime(509)
  {
    forall d | 2 <= d <= 22 ensures 509 % d != 0 {
      assert d == 2 || d == 3 || d == 4 || d == 5 || d == 6 || d == 7 || d == 8 || d == 9 || d == 10 ||
        d == 11 || d == 12 || d == 13 || d == 14 || d == 15 || d == 16 || d == 17 || d == 18 || d == 19 ||
        d == 20 || d == 21 || d == 22;
    }
    PrimeBy(509, 22);
  }

  lemma Prime1021()
    ensures Prime(1021)
  {
    forall d | 2 <= d <= 31 ensures 1021 % d != 0 {
      assert d == 2 || d == 3 || d == 4 || d == 5 || d == 6 || d == 7 || d == 8 || d == 9 || d == 10 ||
        d == 11 || d == 12 || d == 13 || d == 14 || d == 15 || d == 16 || d == 17 || d == 18 || d == 19 ||
        d == 20 || d == 21 || d == 22 || d == 23 || d == 24 || d == 25 || d == 26 || d == 27 || d == 28 ||
        d == 29 || d == 30 || d == 31;
    }
    PrimeBy(1021, 31);
  }

  /** So tables for up to 1021 elements need no hypothesis. */
  lemma SmallTables(n: nat)
    requires n <= 1021
    ensures RowPrime(n)
  {
    Prime7();
    Prime13();
    Prime31();
    Prime61();
    Prime127();
    Prime251();
    Prime509();
    Prime1021();
    forall row: nat | IsRowFor(n, row) ensures Prime(PrimeTab[row].prime) {
      RowBelow(n, row);
    }
  }

  lemma RowBelow(n: nat, row: nat)
    requires n <= 1021 && IsRowFor(n, row)
    ensures row <= 7
  {
    assert PrimeTab[7].prime == 1021;
  }
}
