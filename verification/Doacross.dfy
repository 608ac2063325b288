/** Doacross post and wait (ordered.c): one entry of the doacross array, written by the thread that owns
    the iterations and read by any number of waiting threads.

    In vector form the owner stores the words of an iteration vector from the last to the first while
    waiters load them from the first to the last, so a waiter can see a mixture of two posts.  In
    flattened form the vector is packed into one word. */
module Doacross {
  import opened BitFields

  // ---------- Lexicographic order, prefix by prefix ----------

  predicate EqTo(a: seq<nat>, b: seq<nat>, k: nat)
    requires k <= |a| && k <= |b|
  {
    forall i :: 0 <= i < k ==> a[i] == b[i]
  }

  /** `a` comes before `b` within the first `k` components. */
  predicate LessTo(a: seq<nat>, b: seq<nat>, k: nat)
    requires k <= |a| && k <= |b|
  {
    k > 0 && (LessTo(a, b, k - 1) || (EqTo(a, b, k - 1) && a[k - 1] < b[k - 1]))
  }

  predicate LeqTo(a: seq<nat>, b: seq<nat>, k: nat)
    requires k <= |a| && k <= |b|
  {
    LessTo(a, b, k) || EqTo(a, b, k)
  }

  lemma {:induction false} LessTransitive(a: seq<nat>, b: seq<nat>, c: seq<nat>, k: nat)
    requires k <= |a| && k <= |b| && k <= |c| && LeqTo(a, b, k) && LeqTo(b, c, k)
    ensures LeqTo(a, c, k)
    ensures LessTo(a, b, k) || LessTo(b, c, k) ==> LessTo(a, c, k)
  {
    if k > 0 {
      LeqShorter(a, b, k, k - 1);
      LeqShorter(b, c, k, k - 1);
      LessTransitive(a, b, c, k - 1);
    }
  }

  lemma {:induction false} LeqShorter(a: seq<nat>, b: seq<nat>, k: nat, j: nat)
    requires j <= k <= |a| && k <= |b| && LeqTo(a, b, k)
    ensures LeqTo(a, b, j)
  {
    if j < k {
      LeqShorter(a, b, k - 1, j);
    }
  }

  lemma {:induction false} LessLonger(a: seq<nat>, b: seq<nat>, j: nat, k: nat)
    requires j <= k <= |a| && k <= |b| && LessTo(a, b, j)
    ensures LessTo(a, b, k)
  {
    if j < k {
      LessLonger(a, b, j, k - 1);
    }
  }

  lemma {:induction false} Irreflexive(a: seq<nat>, b: seq<nat>, k: nat)
    requires k <= |a| && k <= |b| && EqTo(a, b, k)
    ensures !LessTo(a, b, k) && !LessTo(b, a, k)
  {
    if k > 0 {
      Irreflexive(a, b, k - 1);
    }
  }

  lemma {:induction false} Total(a: seq<nat>, b: seq<nat>, k: nat)
    requires k <= |a| && k <= |b|
    ensures LessTo(a, b, k) || EqTo(a, b, k) || LessTo(b, a, k)
  {
    if k > 0 {
      Total(a, b, k - 1);
    }
  }

  // ---------- The vector protocol ----------

  /** The owner is between posts, or has `left` words of the last post still to store. */
  datatype Writer = Idle | Storing(left: nat)

  /** A waiter that loads word `at` next, or one whose wait has returned. */
  datatype Waiter = Loading(v: seq<nat>, at: nat) | Returned(v: seq<nat>)

  /** `posts` are the vectors the owner has started to post, in order; a vector may be posted again. */
  datatype Entry = Entry(n: nat, words: seq<nat>, posts: seq<seq<nat>>, writer: Writer, waiters: map<nat, Waiter>)

  datatype Event =
    | StartPost(v: seq<nat>)
    | StoreWord
    | EndPost
    | StartWait(id: nat, v: seq<nat>)
    | LoadWord(id: nat)

  predicate Enabled(e: Entry, ev: Event) {
    match ev
    case StartPost(v) => e.writer == Idle && |v| == e.n && forall p :: p in e.posts ==> |p| == e.n && LeqTo(p, v, e.n)
    case StoreWord =>
      && e.writer.Storing? && 0 < e.writer.left <= |e.words| && e.posts != []
      && e.writer.left <= |e.posts[|e.posts| - 1]|
    case EndPost => e.writer == Storing(0)
    case StartWait(id, v) => |v| == e.n && id !in e.waiters
    case LoadWord(id) =>
      && id in e.waiters && e.waiters[id].Loading?
      && e.waiters[id].at < |e.words| && e.waiters[id].at < |e.waiters[id].v|
  }

  /** What a waiter does with the word it has loaded. */
  function AfterLoad(v: seq<nat>, i: nat, word: nat): Waiter
    requires i < |v|
  {
    if v[i] + 1 < word then Returned(v)
    else if v[i] + 1 > word then Loading(v, 0)
    else if i + 1 == |v| then Returned(v)
    else Loading(v, i + 1)
  }

  function Step(e: Entry, ev: Event): Entry
    requires Enabled(e, ev)
  {
    match ev
    case StartPost(v) => e.(posts := e.posts + [v], writer := Storing(e.n))
    case StoreWord =>
      var i := e.writer.left - 1;
      e.(words := e.words[i := e.posts[|e.posts| - 1][i] + 1], writer := Storing(i))
    case EndPost => e.(writer := Idle)
    case StartWait(id, v) => e.(waiters := e.waiters[id := Loading(v, 0)])
    case LoadWord(id) =>
      var w := e.waiters[id];
      e.(waiters := e.waiters[id := AfterLoad(w.v, w.at, e.words[w.at])])
  }

  /** Which post (counted from 1; 0 is none) stored word `j` last. */
  function Stamp(e: Entry, j: nat): int {
    if e.writer.Storing? && j < e.writer.left then |e.posts| - 1 else |e.posts|
  }

  ghost predicate PostsOk(e: Entry) {
    && (forall k :: 0 <= k < |e.posts| ==> |e.posts[k]| == e.n)
    && (forall k, l :: 0 <= k < l < |e.posts| ==> |e.posts[k]| == e.n && |e.posts[l]| == e.n && LeqTo(e.posts[k], e.posts[l], e.n))
  }

  ghost predicate WordsOk(e: Entry)
    requires PostsOk(e)
  {
    && |e.words| == e.n > 0
    && (e.writer.Storing? ==> e.writer.left <= e.n && e.posts != [])
    && (forall j :: 0 <= j < e.n ==> e.words[j] == if Stamp(e, j) == 0 then 0 else e.posts[Stamp(e, j) - 1][j] + 1)
  }

  /** A post not older than `s` posts wrote word `at`, and it is not before `v` in what was loaded. */
  ghost predicate SeenUpTo(e: Entry, v: seq<nat>, at: nat, s: int) {
    && 1 <= s <= |e.posts| && at < e.n && s <= Stamp(e, at) && |v| == e.n && |e.posts[s - 1]| == e.n
    && LeqTo(v, e.posts[s - 1], at)
  }

  ghost predicate Awaited(e: Entry, v: seq<nat>, k: int) {
    0 <= k < |e.posts| && |v| == e.n && |e.posts[k]| == e.n && LeqTo(v, e.posts[k], e.n)
  }

  ghost predicate WaiterOk(e: Entry, w: Waiter) {
    match w
    case Loading(v, i) => |v| == e.n && i < e.n && (i > 0 ==> exists s :: SeenUpTo(e, v, i, s))
    case Returned(v) => exists k :: Awaited(e, v, k)
  }

  ghost predicate Inv(e: Entry) {
    PostsOk(e) && WordsOk(e) && forall id :: id in e.waiters ==> WaiterOk(e, e.waiters[id])
  }

  // ---------- Every event keeps the invariant ----------

  /** The words of later components are stored first, so their stamps are not older. */
  lemma StampsGrow(e: Entry, i: nat, j: nat)
    requires i <= j
    ensures Stamp(e, i) <= Stamp(e, j) <= |e.posts|
  {
  }

  /** Posts and stamps only grow, so what a waiter has seen stays true. */
  lemma WaiterStable(e: Entry, e': Entry, w: Waiter)
    requires WaiterOk(e, w) && e'.n == e.n && e.posts <= e'.posts
    requires forall j :: 0 <= j < e.n ==> Stamp(e, j) <= Stamp(e', j)
    ensures WaiterOk(e', w)
  {
    match w {
      case Loading(v, i) =>
        if i > 0 {
          var s :| SeenUpTo(e, v, i, s);
          assert SeenUpTo(e', v, i, s);
        }
      case Returned(v) =>
        var k :| Awaited(e, v, k);
        assert Awaited(e', v, k);
    }
  }

  lemma StartPostKeeps(e: Entry, v: seq<nat>)
    requires Inv(e) && Enabled(e, StartPost(v))
    ensures Inv(Step(e, StartPost(v)))
  {
    var e' := Step(e, StartPost(v));
    assert e'.posts[..|e.posts|] == e.posts;
    forall k | 0 <= k < |e.posts| ensures LeqTo(e'.posts[k], v, e.n) { assert e.posts[k] in e.posts; }
    forall id | id in e'.waiters ensures WaiterOk(e', e'.waiters[id]) { WaiterStable(e, e', e.waiters[id]); }
  }

  lemma StoreWordKeeps(e: Entry)
    requires Inv(e) && Enabled(e, StoreWord)
    ensures Inv(Step(e, StoreWord))
  {
    var e' := Step(e, StoreWord);
    forall id | id in e'.waiters ensures WaiterOk(e', e'.waiters[id]) { WaiterStable(e, e', e.waiters[id]); }
  }

  lemma EndPostKeeps(e: Entry)
    requires Inv(e) && Enabled(e, EndPost)
    ensures Inv(Step(e, EndPost))
  {
    var e' := Step(e, EndPost);
    forall id | id in e'.waiters ensures WaiterOk(e', e'.waiters[id]) { WaiterStable(e, e', e.waiters[id]); }
  }

  /** The post that stored word `i` is not before `v` in the components loaded so far. */
  lemma PrefixSeen(e: Entry, v: seq<nat>, i: nat)
    requires PostsOk(e) && WordsOk(e) && WaiterOk(e, Loading(v, i)) && e.words[i] > 0
    ensures Stamp(e, i) >= 1 && |e.posts[Stamp(e, i) - 1]| == e.n && LeqTo(v, e.posts[Stamp(e, i) - 1], i)
  {
    var p := e.posts[Stamp(e, i) - 1];
    if i > 0 {
      var s :| SeenUpTo(e, v, i, s);
      var q := e.posts[s - 1];
      if s < Stamp(e, i) {
        assert LeqTo(q, p, e.n);
        LeqShorter(q, p, e.n, i);
        LessTransitive(v, q, p, i);
      }
    }
  }

  lemma LoadedOk(e: Entry, v: seq<nat>, i: nat)
    requires PostsOk(e) && WordsOk(e) && WaiterOk(e, Loading(v, i))
    ensures WaiterOk(e, AfterLoad(v, i, e.words[i]))
  {
    var word := e.words[i];
    if v[i] + 1 <= word {
      PrefixSeen(e, v, i);
      var s := Stamp(e, i);
      var p := e.posts[s - 1];
      assert word == p[i] + 1;
      assert LeqTo(v, p, i + 1);
      if v[i] + 1 < word {
        assert LessTo(v, p, i + 1);
        LessLonger(v, p, i + 1, e.n);
        assert Awaited(e, v, s - 1);
      } else if i + 1 == e.n {
        assert Awaited(e, v, s - 1);
      } else {
        StampsGrow(e, i, i + 1);
        assert SeenUpTo(e, v, i + 1, s);
      }
    }
  }

  lemma LoadWordKeeps(e: Entry, id: nat)
    requires Inv(e) && Enabled(e, LoadWord(id))
    ensures Inv(Step(e, LoadWord(id)))
  {
    var e' := Step(e, LoadWord(id));
    LoadedOk(e, e.waiters[id].v, e.waiters[id].at);
    forall j | j in e'.waiters ensures WaiterOk(e', e'.waiters[j]) {
      WaiterStable(e, e', e'.waiters[j]);
    }
  }

  lemma StartWaitKeeps(e: Entry, id: nat, v: seq<nat>)
    requires Inv(e) && Enabled(e, StartWait(id, v))
    ensures Inv(Step(e, StartWait(id, v)))
  {
    var e' := Step(e, StartWait(id, v));
    forall j | j in e'.waiters ensures WaiterOk(e', e'.waiters[j]) {
      if j != id { WaiterStable(e, e', e.waiters[j]); }
    }
  }

  lemma StepKeeps(e: Entry, ev: Event)
    requires Inv(e) && Enabled(e, ev)
    ensures Inv(Step(e, ev))
  {
    match ev {
      case StartPost(v) => StartPostKeeps(e, v);
      case StoreWord => StoreWordKeeps(e);
      case EndPost => EndPostKeeps(e);
      case StartWait(id, v) => StartWaitKeeps(e, id, v);
      case LoadWord(id) => LoadWordKeeps(e, id);
    }
  }

  ghost predicate Run(es: seq<Entry>, evs: seq<Event>) {
    && |es| == |evs| + 1
    && forall i :: 0 <= i < |evs| ==> Enabled(es[i], evs[i]) && es[i + 1] == Step(es[i], evs[i])
  }

  function Init(n: nat): Entry {
    Entry(n, seq(n, i => 0), [], Idle, map[])
  }

  lemma {:induction false} RunKeeps(n: nat, es: seq<Entry>, evs: seq<Event>, i: nat)
    requires n > 0 && Run(es, evs) && es[0] == Init(n) && i < |es|
    ensures Inv(es[i])
  {
    if i > 0 {
      RunKeeps(n, es, evs, i - 1);
      StepKeeps(es[i - 1], evs[i - 1]);
    }
  }

  /** In every interleaving of the word stores of the owner and the word loads of any waiters: a wait
      returns only if the awaited vector, or a later one, was posted by the owner. */
  lemma DoacrossSafety(n: nat, es: seq<Entry>, evs: seq<Event>, i: nat, id: nat)
    requires n > 0 && Run(es, evs) && es[0] == Init(n) && i < |es|
    requires id in es[i].waiters && es[i].waiters[id].Returned?
    ensures exists k :: Awaited(es[i], es[i].waiters[id].v, k)
  {
    RunKeeps(n, es, evs, i);
    assert WaiterOk(es[i], es[i].waiters[id]);
  }

  // ---------- Progress ----------

  /** `k` loads in a row by a waiter, undisturbed. */
  function LoadMany(words: seq<nat>, t: Waiter, k: nat): Waiter
    decreases k
  {
    if k == 0 || t.Returned? || t.at >= |words| || t.at >= |t.v| then t
    else LoadMany(words, AfterLoad(t.v, t.at, words[t.at]), k - 1)
  }

  /** The words hold the post `w`. */
  ghost predicate Holds(words: seq<nat>, w: seq<nat>) {
    |words| == |w| && forall i :: 0 <= i < |w| ==> words[i] == w[i] + 1
  }

  /** A word that agrees, or is later, lets the wait go on, or return. */
  lemma AgreeingLoad(v: seq<nat>, w: seq<nat>, i: nat)
    requires |v| == |w| && i < |v| && LeqTo(v, w, |v|) && EqTo(v, w, i)
    ensures v[i] <= w[i]
    ensures AfterLoad(v, i, w[i] + 1) == if v[i] == w[i] && i + 1 < |v| then Loading(v, i + 1) else Returned(v)
  {
    if v[i] > w[i] {
      assert LessTo(w, v, i + 1) && EqTo(w, v, i);
      LessLonger(w, v, i + 1, |v|);
      NotBoth(v, w, |v|);
    }
  }

  /** From a word on before which the loads agree with the post, the wait returns. */
  lemma {:induction false} LoadsAgree(words: seq<nat>, w: seq<nat>, v: seq<nat>, i: nat)
    requires Holds(words, w) && |v| == |w| && i < |v| && LeqTo(v, w, |v|) && EqTo(v, w, i)
    ensures LoadMany(words, Loading(v, i), |v| - i) == Returned(v)
    decreases |v| - i
  {
    AgreeingLoad(v, w, i);
    if v[i] == w[i] && i + 1 < |v| { LoadsAgree(words, w, v, i + 1); }
  }

  lemma {:induction false} LoadsAfter(words: seq<nat>, t: Waiter, j: nat, k: nat)
    ensures LoadMany(words, t, j + k) == LoadMany(words, LoadMany(words, t, j), k)
    decreases j
  {
    if j > 0 && t.Loading? && t.at < |words| && t.at < |t.v| {
      LoadsAfter(words, AfterLoad(t.v, t.at, words[t.at]), j - 1, k);
    }
  }

  /** Wherever the waiter stands, it comes back to the first word or returns. */
  lemma {:induction false} LoadsTurn(words: seq<nat>, v: seq<nat>, i: nat) returns (k: nat)
    requires |words| == |v| && i < |v|
    ensures k <= |v| - i
    ensures LoadMany(words, Loading(v, i), k) == Returned(v) || LoadMany(words, Loading(v, i), k) == Loading(v, 0)
    decreases |v| - i
  {
    k := 1;
    if AfterLoad(v, i, words[i]) == Loading(v, i + 1) {
      k := LoadsTurn(words, v, i + 1);
      k := k + 1;
    }
  }

  /** Over the words of a post not before the awaited vector, a wait returns after at most two passes. */
  lemma LoadsReturn(words: seq<nat>, w: seq<nat>, v: seq<nat>, i: nat)
    requires Holds(words, w) && |v| == |w| && i < |v| && LeqTo(v, w, |v|)
    ensures LoadMany(words, Loading(v, i), 2 * |v|) == Returned(v)
  {
    var k := LoadsTurn(words, v, i);
    var t := LoadMany(words, Loading(v, i), k);
    LoadsAfter(words, Loading(v, i), k, 2 * |v| - k);
    if t == Loading(v, 0) {
      LoadsAgree(words, w, v, 0);
      LoadsAfter(words, t, |v|, |v| - k);
    }
  }

  /** The same loads as events of the protocol. */
  function Loads(e: Entry, id: nat, k: nat): Entry
    decreases k
  {
    if k == 0 || !Enabled(e, LoadWord(id)) then e else Loads(Step(e, LoadWord(id)), id, k - 1)
  }

  lemma {:induction false} LoadsAre(e: Entry, id: nat, k: nat)
    requires id in e.waiters
    ensures id in Loads(e, id, k).waiters && Loads(e, id, k).waiters[id] == LoadMany(e.words, e.waiters[id], k)
    decreases k
  {
    if k > 0 && Enabled(e, LoadWord(id)) { LoadsAre(Step(e, LoadWord(id)), id, k - 1); }
  }

  /** Once a post that is not before the awaited vector is complete, the wait returns after at most two passes
      over the words, wherever in the vector it has come to. */
  lemma DoacrossProgress(e: Entry, id: nat, v: seq<nat>, i: nat)
    requires Inv(e) && e.writer == Idle && e.posts != [] && id in e.waiters && e.waiters[id] == Loading(v, i)
    requires |v| == e.n && |e.posts[|e.posts| - 1]| == e.n && LeqTo(v, e.posts[|e.posts| - 1], e.n)
    ensures var e' := Loads(e, id, 2 * e.n); id in e'.waiters && e'.waiters[id] == Returned(v)
  {
    assert WaiterOk(e, e.waiters[id]);
    LoadsReturn(e.words, e.posts[|e.posts| - 1], v, i);
    LoadsAre(e, id, 2 * e.n);
  }

  // ---------- The loops over the words ----------

  /** GOMP_doacross_post, vector form: from the last word to the first, skipping equal ones. */
  method PostVector(words: array<nat>, v: seq<nat>)
    requires |v| == words.Length
    modifies words
    ensures Holds(words[..], v)
  {
    var i := words.Length;
    while i > 0
      invariant 0 <= i <= words.Length
      invariant forall j :: i <= j < words.Length ==> words[j] == v[j] + 1
    {
      i := i - 1;
      if words[i] != v[i] + 1 {
        words[i] := v[i] + 1;
      }
    }
  }

  /** One round of GOMP_doacross_wait, vector form.  Undisturbed, it succeeds exactly when the posted
      vector is not before the awaited one, so a completed post is never missed. */
  method WaitRound(words: array<nat>, v: seq<nat>, ghost w: seq<nat>) returns (done: bool)
    requires |v| == words.Length && Holds(words[..], w)
    ensures done <==> LeqTo(v, w, |v|)
  {
    var i := 0;
    while i < words.Length
      invariant 0 <= i <= words.Length && EqTo(v, w, i)
    {
      var cur := words[i];
      assert cur == words[..][i];
      if v[i] + 1 < cur {
        assert LessTo(v, w, i + 1);
        LessLonger(v, w, i + 1, |v|);
        return true;
      }
      if v[i] + 1 > cur {
        assert EqTo(w, v, i) && LessTo(w, v, i + 1);
        LessLonger(w, v, i + 1, |v|);
        NotBoth(v, w, |v|);
        return false;
      }
      i := i + 1;
    }
    return true;
  }

  lemma NotBoth(v: seq<nat>, w: seq<nat>, k: nat)
    requires k <= |v| && k <= |w| && LessTo(w, v, k)
    ensures !LeqTo(v, w, k)
  {
    if LeqTo(v, w, k) {
      LessTransitive(v, w, v, k);
      Irreflexive(v, v, k);
    }
  }

  // ---------- The flattened form ----------

  const WORD_BITS: nat := 64
  const WORD: nat := 0x1_0000_0000_0000_0000

  /** Bits for one component of a loop with `count` iterations: the least number, but at least one. */
  function BitsFor(count: nat): (n: nat)
    requires count > 0
    ensures n > 0 && count <= Pow2(n) && (n == 1 || Pow2(n - 1) < count)
  {
    if count == 1 then 1 else BitLength(count - 1)
  }

  function Bits(counts: seq<nat>): (bits: seq<nat>)
    requires forall i :: 0 <= i < |counts| ==> counts[i] > 0
    ensures |bits| == |counts|
    ensures forall i :: 0 <= i < |bits| ==> bits[i] == BitsFor(counts[i])
  {
    seq(|counts|, i requires 0 <= i < |counts| => BitsFor(counts[i]))
  }

  function SumFrom(bits: seq<nat>, i: nat): nat
    requires i <= |bits|
    decreases |bits| - i
  {
    if i == |bits| then 0 else bits[i] + SumFrom(bits, i + 1)
  }

  /** The packed vector: component after component, most significant first. */
  function Pack(v: seq<nat>, bits: seq<nat>, k: nat): nat
    requires k <= |v| && k <= |bits|
  {
    if k == 0 then 0 else Pack(v, bits, k - 1) * Pow2(bits[k - 1]) + v[k - 1]
  }

  /** Every component fits its field. */
  predicate Fits(v: seq<nat>, bits: seq<nat>) {
    |v| == |bits| && forall i :: 0 <= i < |v| ==> v[i] < Pow2(bits[i])
  }

  lemma DigitOrder(p: nat, q: nat, b: nat, x: nat, y: nat)
    requires x < b && y < b
    ensures p < q ==> p * b + x < q * b + y
    ensures p == q ==> (p * b + x < q * b + y <==> x < y)
    ensures p == q ==> (p * b + x == q * b + y <==> x == y)
  {
    if p < q {
      assert (p + 1) * b <= q * b;
    }
  }

  /** Bit packing embeds the lexicographic order. */
  lemma {:induction false} PackOrder(v: seq<nat>, w: seq<nat>, bits: seq<nat>, k: nat)
    requires Fits(v, bits) && Fits(w, bits) && k <= |bits|
    ensures Pack(v, bits, k) < Pack(w, bits, k) <==> LessTo(v, w, k)
    ensures Pack(v, bits, k) == Pack(w, bits, k) <==> EqTo(v, w, k)
  {
    if k > 0 {
      PackOrder(v, w, bits, k - 1);
      Total(v, w, k - 1);
      PackOrder2(v, w, bits, k - 1);
      var b := Pow2(bits[k - 1]);
      DigitOrder(Pack(v, bits, k - 1), Pack(w, bits, k - 1), b, v[k - 1], w[k - 1]);
      DigitOrder(Pack(w, bits, k - 1), Pack(v, bits, k - 1), b, w[k - 1], v[k - 1]);
    }
  }

  lemma {:induction false} PackOrder2(v: seq<nat>, w: seq<nat>, bits: seq<nat>, k: nat)
    requires Fits(v, bits) && Fits(w, bits) && k <= |bits|
    requires Pack(v, bits, k) < Pack(w, bits, k) <==> LessTo(v, w, k)
    requires Pack(v, bits, k) == Pack(w, bits, k) <==> EqTo(v, w, k)
    ensures Pack(w, bits, k) < Pack(v, bits, k) <==> LessTo(w, v, k)
  {
    Total(v, w, k);
    if LessTo(w, v, k) { NotBoth(v, w, k); }
  }

  lemma {:induction false} PackBound(v: seq<nat>, bits: seq<nat>, k: nat)
    requires Fits(v, bits) && k <= |bits|
    ensures Pack(v, bits, k) * Pow2(SumFrom(bits, k)) < Pow2(SumFrom(bits, 0))
    ensures Pack(v, bits, k) + 1 <= Pow2(SumTo(bits, k)) && SumTo(bits, k) + SumFrom(bits, k) == SumFrom(bits, 0)
  {
    SumSplit(bits, k);
    PackBelow(v, bits, k);
    Pow2Sum(SumTo(bits, k), SumFrom(bits, k));
    MulLess(Pack(v, bits, k), Pow2(SumTo(bits, k)), Pow2(SumFrom(bits, k)));
  }

  lemma MulLess(a: nat, b: nat, c: nat)
    requires a < b && c >= 1
    ensures a * c < b * c
  {
  }

  function SumTo(bits: seq<nat>, i: nat): nat
    requires i <= |bits|
  {
    if i == 0 then 0 else SumTo(bits, i - 1) + bits[i - 1]
  }

  lemma {:induction false} SumSplit(bits: seq<nat>, k: nat)
    requires k <= |bits|
    ensures SumTo(bits, k) + SumFrom(bits, k) == SumFrom(bits, 0)
  {
    if k > 0 {
      SumSplit(bits, k - 1);
    }
  }

  lemma {:induction false} PackBelow(v: seq<nat>, bits: seq<nat>, k: nat)
    requires Fits(v, bits) && k <= |bits|
    ensures Pack(v, bits, k) < Pow2(SumTo(bits, k))
  {
    if k > 0 {
      PackBelow(v, bits, k - 1);
      var b := Pow2(bits[k - 1]);
      Pow2Sum(SumTo(bits, k - 1), bits[k - 1]);
      DigitOrder(Pack(v, bits, k - 1), Pow2(SumTo(bits, k - 1)), b, v[k - 1], 0);
    }
  }

  /** The shift of component `i`: the bits of the components after it. */
  ghost predicate ShiftsOk(shifts: seq<nat>, bits: seq<nat>) {
    |shifts| == |bits| && forall i :: 0 <= i < |bits| ==> shifts[i] == SumFrom(bits, i + 1)
  }

  lemma FieldStep(v: seq<nat>, bits: seq<nat>, i: nat)
    requires Fits(v, bits) && i < |bits|
    ensures var acc, s := Pack(v, bits, i) * Pow2(SumFrom(bits, i)), Pow2(SumFrom(bits, i + 1));
      Or(acc, v[i] * s) == Pack(v, bits, i + 1) * s
  {
    var p, s, b := Pack(v, bits, i), Pow2(SumFrom(bits, i + 1)), Pow2(bits[i]);
    Pow2Sum(bits[i], SumFrom(bits, i + 1));
    assert Pow2(SumFrom(bits, i)) == b * s;
    MulLess(v[i], b, s);
    OrDisjoint(p, v[i] * s, SumFrom(bits, i));
    Distribute(p, b, v[i], s);
  }

  lemma Distribute(p: nat, b: nat, x: nat, s: nat)
    ensures (p * b + x) * s == p * (b * s) + x * s
  {
  }

  /** The shift-and-or loop of GOMP_doacross_post and GOMP_doacross_wait packs the vector. */
  method Flatten(v: seq<nat>, shifts: seq<nat>, ghost bits: seq<nat>) returns (flattened: nat)
    requires |v| > 0 && Fits(v, bits) && ShiftsOk(shifts, bits)
    ensures flattened == Pack(v, bits, |v|)
  {
    flattened := v[0] * Pow2(shifts[0]);
    FieldStep(v, bits, 0);
    var i := 1;
    while i < |v|
      invariant 1 <= i <= |v|
      invariant flattened == Pack(v, bits, i) * Pow2(SumFrom(bits, i))
    {
      FieldStep(v, bits, i);
      flattened := Or(flattened, v[i] * Pow2(shifts[i]));
      i := i + 1;
    }
  }

  /** Bits, also where a count is 0. */
  ghost function Widths(counts: seq<nat>): (w: seq<nat>)
    ensures |w| == |counts| && forall i :: 0 <= i < |w| && counts[i] > 0 ==> w[i] == BitsFor(counts[i])
  {
    seq(|counts|, k requires 0 <= k < |counts| => if counts[k] > 0 then BitsFor(counts[k]) else 0)
  }

  /** What the counting loop knows after `i` counts: the widths as long as they fit the word. */
  ghost predicate Fitting(widths: seq<nat>, i: nat, numBits: nat, bits: seq<nat>) {
    && i <= |widths|
    && if SumTo(widths, i) <= WORD_BITS then numBits == SumTo(widths, i) && bits == widths[..i] else numBits == WORD_BITS + 1
  }

  lemma FittingStep(widths: seq<nat>, i: nat, numBits: nat, bits: seq<nat>)
    requires Fitting(widths, i, numBits, bits) && i < |widths|
    ensures numBits > WORD_BITS ==> Fitting(widths, i + 1, numBits, bits)
    ensures numBits + widths[i] <= WORD_BITS ==> Fitting(widths, i + 1, numBits + widths[i], bits + [widths[i]])
    ensures numBits <= WORD_BITS < numBits + widths[i] ==> Fitting(widths, i + 1, WORD_BITS + 1, bits)
  {
    assert widths[..i + 1] == widths[..i] + [widths[i]];
  }

  /** The loop of gomp_doacross_init over the counts. */
  method CountBits(counts: seq<nat>) returns (created: bool, numBits: nat, bits: seq<nat>)
    ensures created <==> forall i :: 0 <= i < |counts| ==> counts[i] > 0
    ensures created ==> Fitting(Widths(counts), |counts|, numBits, bits)
  {
    created, numBits, bits := true, 0, [];
    var i := 0;
    while i < |counts|
      invariant 0 <= i <= |counts|
      invariant forall k :: 0 <= k < i ==> counts[k] > 0
      invariant Fitting(Widths(counts), i, numBits, bits)
    {
      if counts[i] == 0 {
        return false, 0, [];
      }
      FittingStep(Widths(counts), i, numBits, bits);
      if numBits <= WORD_BITS {
        var thisBits := BitsFor(counts[i]);
        if numBits + thisBits <= WORD_BITS {
          bits := bits + [thisBits];
          numBits := numBits + thisBits;
        } else {
          numBits := WORD_BITS + 1;
        }
      }
      i := i + 1;
    }
  }

  /** The field layout of gomp_doacross_init: no entry array if some loop has no iterations, the
      flattened form exactly when all fields fit one word. */
  method PlanFields(counts: seq<nat>) returns (created: bool, flattened: bool, shifts: seq<nat>)
    ensures created <==> forall i :: 0 <= i < |counts| ==> counts[i] > 0
    ensures created ==> (flattened <==> SumFrom(Bits(counts), 0) <= WORD_BITS)
    ensures created && flattened ==> ShiftsOk(shifts, Bits(counts))
  {
    flattened, shifts := false, [];
    var numBits, bits;
    created, numBits, bits := CountBits(counts);
    if created {
      assert Widths(counts) == Bits(counts);
      SumSplit(Bits(counts), |counts|);
      flattened := numBits <= WORD_BITS;
      if flattened {
        assert bits == Bits(counts);
        shifts := ShiftCounts(bits);
      }
    }
  }

  method ShiftCounts(bits: seq<nat>) returns (shifts: seq<nat>)
    ensures ShiftsOk(shifts, bits)
  {
    shifts := [];
    var i, shiftCount := |bits|, 0;
    while i > 0
      invariant 0 <= i <= |bits| && shiftCount == SumFrom(bits, i)
      invariant |shifts| == |bits| - i
      invariant forall k :: 0 <= k < |shifts| ==> shifts[k] == SumFrom(bits, i + k + 1)
    {
      i := i - 1;
      shifts := [shiftCount] + shifts;
      shiftCount := shiftCount + bits[i];
    }
  }

  lemma WordIsPow2()
    ensures Pow2(8) == 0x100 && Pow2(16) == 0x1_0000 && Pow2(32) == 0x1_0000_0000 && Pow2(WORD_BITS) == WORD
  {
    assert Pow2(4) == 16;
    Pow2Sum(4, 4);
    Pow2Sum(8, 8);
    Pow2Sum(16, 16);
    Pow2Sum(32, 32);
  }

  /** The word a flattened post stores: one more than the packed vector, in one machine word. */
  function PostWord(w: seq<nat>, bits: seq<nat>): nat
    requires |w| == |bits|
  {
    (Pack(w, bits, |w|) + 1) % WORD
  }

  /** A flattened wait returns when the packed awaited vector is below the stored word. */
  predicate FlatWaitReturns(v: seq<nat>, word: nat, bits: seq<nat>)
    requires |v| == |bits|
  {
    Pack(v, bits, |v|) < word
  }

  lemma PackInWord(w: seq<nat>, bits: seq<nat>)
    requires Fits(w, bits) && SumFrom(bits, 0) <= WORD_BITS
    ensures Pack(w, bits, |w|) + 1 <= WORD
    ensures SumFrom(bits, 0) < WORD_BITS ==> Pack(w, bits, |w|) + 1 < WORD
  {
    PackBound(w, bits, |w|);
    WordIsPow2();
    Pow2Mono(SumFrom(bits, 0), WORD_BITS);
    if SumFrom(bits, 0) < WORD_BITS {
      Pow2Mono(SumFrom(bits, 0) + 1, WORD_BITS);
    }
  }

  /** Flattened safety and progress.  A wait returns only for a vector not after the posted one; it
      returns for every such vector exactly when the post did not wrap to zero, which only the all-ones
      vector of a layout that fills the word does. */
  lemma FlatWait(v: seq<nat>, w: seq<nat>, bits: seq<nat>)
    requires Fits(v, bits) && Fits(w, bits) && SumFrom(bits, 0) <= WORD_BITS
    ensures FlatWaitReturns(v, PostWord(w, bits), bits) ==> LeqTo(v, w, |v|)
    ensures Pack(w, bits, |w|) + 1 != WORD ==>
              (FlatWaitReturns(v, PostWord(w, bits), bits) <==> LeqTo(v, w, |v|))
    ensures Pack(w, bits, |w|) + 1 == WORD ==> !FlatWaitReturns(v, PostWord(w, bits), bits)
    ensures SumFrom(bits, 0) < WORD_BITS ==> Pack(w, bits, |w|) + 1 != WORD
  {
    PackOrder(v, w, bits, |v|);
    PackInWord(w, bits);
  }

  lemma {:induction false} BitLengthIs(x: nat, n: nat)
    requires n > 0 && Pow2(n - 1) <= x < Pow2(n)
    ensures BitLength(x) == n
  {
    if BitLength(x) < n { Pow2Mono(BitLength(x), n - 1); }
    if BitLength(x) > n { Pow2Mono(n, BitLength(x) - 1); }
  }

  /** A layout that fills the word: after the post of the last iteration no earlier one can be awaited. */
  lemma FlatWrap()
    ensures var bits, w := [32, 32], [0xFFFF_FFFF, 0xFFFF_FFFF];
      && Bits([0x1_0000_0000, 0x1_0000_0000]) == bits
      && Fits(w, bits) && PostWord(w, bits) == 0 && !FlatWaitReturns([0, 0], PostWord(w, bits), bits)
  {
    var bits, w := [32, 32], [0xFFFF_FFFF, 0xFFFF_FFFF];
    WordIsPow2();
    assert Pow2(32) == 2 * Pow2(31);
    BitLengthIs(0xFFFF_FFFF, 32);
    assert Pack(w, bits, 0) == 0;
    assert Pack(w, bits, 1) == 0xFFFF_FFFF;
    assert Pack(w, bits, 2) == 0xFFFF_FFFF * 0x1_0000_0000 + 0xFFFF_FFFF;
  }
}
