/** The open-addressing hash table with double hashing (hashtab.h). */
module HashTable {
  import opened BitFields
  import opened Counting

  const Word: nat := 0x1_0000_0000

  /** Arithmetic on hashval_t. */
  function Wrap(x: int): nat {
    x % Word
  }

  // ---------- Remainders by multiplication and shift ----------

  datatype Row = Row(prime: nat, inv: nat, invM2: nat, shift: nat)

  const PrimeTab: seq<Row> := [
    Row(7, 0x24924925, 0x9999999b, 2), Row(13, 0x3b13b13c, 0x745d1747, 3), Row(31, 0x08421085, 0x1a7b9612, 4),
    Row(61, 0x0c9714fc, 0x15b1e5f8, 5), Row(127, 0x02040811, 0x0624dd30, 6), Row(251, 0x05197f7e, 0x073260a5, 7),
    Row(509, 0x01824366, 0x02864fc8, 8), Row(1021, 0x00c0906d, 0x014191f7, 9), Row(2039, 0x0121456f, 0x0161e69e, 10),
    Row(4093, 0x00300902, 0x00501908, 11), Row(8191, 0x00080041, 0x00180241, 12), Row(16381, 0x000c0091, 0x00140191, 13),
    Row(32749, 0x002605a5, 0x002a06e6, 14), Row(65521, 0x000f00e2, 0x00110122, 15), Row(131071, 0x00008001, 0x00018003, 16),
    Row(262139, 0x00014002, 0x0001c004, 17), Row(524287, 0x00002001, 0x00006001, 18), Row(1048573, 0x00003001, 0x00005001, 19),
    Row(2097143, 0x00004801, 0x00005801, 20), Row(4194301, 0x00000c01, 0x00001401, 21), Row(8388593, 0x00001e01, 0x00002201, 22),
    Row(16777213, 0x00000301, 0x00000501, 23), Row(33554393, 0x00001381, 0x00001481, 24), Row(67108859, 0x00000141, 0x000001c1, 25),
    Row(134217689, 0x000004e1, 0x00000521, 26), Row(268435399, 0x00000391, 0x000003b1, 27), Row(536870909, 0x00000019, 0x00000029, 28),
    Row(1073741789, 0x0000008d, 0x00000095, 29), Row(2147483647, 0x00000003, 0x00000007, 30), Row(0xfffffffb, 0x00000006, 0x00000008, 31)
  ]

  /** The quotient in htab_mod_1, computed on 32-bit words. */
  function WordQuotient(x: nat, inv: nat, pw: nat): nat
    requires pw > 0
  {
    var t1 := x * inv / Word;
    var t2 := Wrap(x - t1);
    var t3 := t2 / 2;
    Wrap(t1 + t3) / pw
  }

  /** htab_mod_1. */
  function MulShift(x: nat, y: nat, inv: nat, shift: nat): nat {
    Wrap(x - Wrap(WordQuotient(x, inv, Pow2(shift)) * y))
  }

  /** The multiplier rounds 2^(33+shift) / y up, and by little. */
  predicate Fits(y: nat, inv: nat, shift: nat) {
    && 0 < y && inv < Word
    && 0 <= (Word + inv) * y - Word * (2 * Pow2(shift)) <= 2 * Pow2(shift)
  }

  lemma LowerBound(q: nat, y: nat, r: nat, m: nat, e: nat, n: nat)
    requires m * y == n + e
    ensures q * n <= (q * y + r) * m
  {
    assert (q * y + r) * m == q * (m * y) + r * m;
    assert q * (n + e) == q * n + q * e;
  }

  lemma CancelLess(a: int, b: int, y: nat)
    requires 0 < y && a * y < b * y
    ensures a < b
  {
  }

  lemma ScaleAtMost(a: nat, b: nat, n: nat)
    requires a <= b
    ensures a * n <= b * n
  {
  }

  lemma UpperBound(x: nat, q: nat, y: nat, m: nat, e: nat, n: nat)
    requires m * y == n + e && x < (q + 1) * y && x * e < n && 0 < y
    ensures x * m < (q + 1) * n
  {
    assert x * m * y == x * (m * y) == x * n + x * e;
    ScaleAtMost(x + 1, (q + 1) * y, n);
    assert (x + 1) * n == x * n + n;
    assert (q + 1) * y * n == (q + 1) * n * y;
    CancelLess(x * m, (q + 1) * n, y);
  }

  lemma SmallError(x: nat, e: nat, p: nat, w: nat)
    requires x < w && e <= p && 0 < p
    ensures x * e < w * p
  {
    ScaleAtMost(e, p, x);
    assert x * e == e * x && p * x == x * p;
    assert x * p < w * p by { ScaleAtMost(x + 1, w, p); assert (x + 1) * p == x * p + p; }
  }

  /** With m = (2^33 << shift) / y rounded up, x * m shifted right is the quotient. */
  lemma QuotientBounds(x: nat, y: nat, m: nat, p: nat, w: nat)
    requires 0 < y && 0 < p && x < w && 0 <= m * y - w * p <= p
    ensures x / y * (w * p) <= x * m < (x / y + 1) * (w * p)
  {
    var q, r := x / y, x % y;
    var e := m * y - w * p;
    SmallError(x, e, p, w);
    assert x == q * y + r;
    assert (q + 1) * y == q * y + y;
    LowerBound(q, y, r, m, e, w * p);
    UpperBound(x, q, y, m, e, w * p);
  }

  lemma FloorBounds(z: nat, w: nat, lo: nat, hi: nat)
    requires 0 < w && lo * w <= z < hi * w
    ensures lo <= z / w < hi
  {
    var a, b := z / w, z % w;
    assert z == a * w + b;
    assert (a + 1) * w == a * w + w;
    CancelLess(lo, a + 1, w);
    CancelLess(a, hi, w);
  }

  lemma Regroup(q: nat, w: nat, p: nat)
    ensures q * (w * p) == (q * p) * w
  {
  }

  /** Two floors in a row. */
  lemma FloorFloor(z: nat, w: nat, p: nat, q: nat)
    requires 0 < w && 0 < p && q * (w * p) <= z < (q + 1) * (w * p)
    ensures z / w / p == q
  {
    Regroup(q, w, p);
    Regroup(q + 1, w, p);
    FloorBounds(z, w, q * p, (q + 1) * p);
    QuotientIs(z / w, p, q);
  }

  lemma QuotientIs(a: nat, p: nat, q: nat)
    requires 0 < p && q * p <= a < (q + 1) * p
    ensures a / p == q
  {
    var k, r := a / p, a % p;
    assert a == k * p + r;
    assert (k + 1) * p == k * p + p && (q + 1) * p == q * p + p;
    CancelLess(k, q + 1, p);
    CancelLess(q, k + 1, p);
  }

  /** The intermediate values of htab_mod_1 do not wrap, and the average stands for one more bit. */
  lemma Average(x: nat, inv: nat)
    requires x < Word && inv < Word
    ensures x * inv / Word <= x
    ensures x * inv / Word + (x - x * inv / Word) / 2 == (x + x * inv / Word) / 2 <= x
    ensures x + x * inv / Word == x * (Word + inv) / Word
  {
    assert x * inv <= x * Word by { ScaleAtMost(inv, Word, x); assert inv * x == x * inv; }
    assert x * (Word + inv) == x * inv + x * Word;
  }

  lemma HalfThenShift(a: nat, p: nat)
    requires 0 < p
    ensures a / 2 / p == a / (2 * p)
  {
    var b, c := a / 2, a % 2;
    var k, r := b / p, b % p;
    assert b == k * p + r && k * (2 * p) == 2 * (k * p) && (k + 1) * (2 * p) == 2 * (k * p) + 2 * p;
    QuotientIs(a, 2 * p, k);
  }

  lemma ShiftedProduct(x: nat, y: nat, m: nat, p: nat)
    requires x < Word && 0 < y && 0 < p && 0 <= m * y - Word * p <= p
    ensures x * m / Word / p == x / y
  {
    QuotientBounds(x, y, m, p, Word);
    FloorFloor(x * m, Word, p, x / y);
  }

  lemma QuotientExact(x: nat, y: nat, inv: nat, pw: nat)
    requires x < Word && inv < Word && 0 < y && 0 < pw && 0 <= (Word + inv) * y - Word * (2 * pw) <= 2 * pw
    ensures x * inv / Word <= x
    ensures (x * inv / Word + (x - x * inv / Word) / 2) / pw == x / y
  {
    ShiftedProduct(x, y, Word + inv, 2 * pw);
    Average(x, inv);
    HalfThenShift(x + x * inv / Word, pw);
  }

  lemma NoWrap(x: nat)
    requires x < Word
    ensures Wrap(x) == x
  {
  }

  lemma WordSteps(x: nat, inv: nat, pw: nat)
    requires x < Word && inv < Word && 0 < pw
    ensures x * inv / Word <= x
    ensures WordQuotient(x, inv, pw) == (x * inv / Word + (x - x * inv / Word) / 2) / pw
  {
    var t1 := x * inv / Word;
    Average(x, inv);
    NoWrap(x - t1);
    NoWrap(t1 + (x - t1) / 2);
  }

  lemma WordQuotientExact(x: nat, y: nat, inv: nat, pw: nat)
    requires x < Word && inv < Word && 0 < y && 0 < pw && 0 <= (Word + inv) * y - Word * (2 * pw) <= 2 * pw
    ensures WordQuotient(x, inv, pw) == x / y
  {
    WordSteps(x, inv, pw);
    QuotientExact(x, y, inv, pw);
  }

  lemma WordRemainder(x: nat, y: nat)
    requires x < Word && 0 < y
    ensures Wrap(x - Wrap(x / y * y)) == x % y
  {
    var qy := x / y * y;
    assert x == qy + x % y;
    NoWrap(qy);
    NoWrap(x - qy);
  }

  /** htab_mod_1 is the remainder. */
  lemma MulShiftExact(x: nat, y: nat, inv: nat, shift: nat)
    requires x < Word && Fits(y, inv, shift)
    ensures MulShift(x, y, inv, shift) == x % y
  {
    WordQuotientExact(x, y, inv, Pow2(shift));
    WordRemainder(x, y);
  }

  /** The table is in increasing order and every multiplier fits, for the prime and for the prime less 2. */
  predicate RowGood(r: Row) {
    && 7 <= r.prime < Word && Fits(r.prime, r.inv, r.shift) && Fits(r.prime - 2, r.invM2, r.shift)
  }

  lemma Powers2()
    ensures Pow2(2) == 4 && Pow2(3) == 8 && Pow2(4) == 16 && Pow2(5) == 32 && Pow2(6) == 64
    ensures Pow2(7) == 128 && Pow2(8) == 256 && Pow2(9) == 512 && Pow2(10) == 0x400 && Pow2(11) == 0x800
  {
  }

  lemma Powers12()
    ensures Pow2(12) == 0x1000 && Pow2(13) == 0x2000 && Pow2(14) == 0x4000 && Pow2(15) == 0x8000 && Pow2(16) == 0x10000
    ensures Pow2(17) == 0x20000 && Pow2(18) == 0x40000 && Pow2(19) == 0x80000 && Pow2(20) == 0x100000 && Pow2(21) == 0x200000
  {
    Powers2();
  }

  lemma Powers22()
    ensures Pow2(22) == 0x400000 && Pow2(23) == 0x800000 && Pow2(24) == 0x1000000 && Pow2(25) == 0x2000000 && Pow2(26) == 0x4000000
    ensures Pow2(27) == 0x8000000 && Pow2(28) == 0x10000000 && Pow2(29) == 0x20000000 && Pow2(30) == 0x40000000 && Pow2(31) == 0x80000000
  {
    Powers12();
  }

  lemma Rows0()
    ensures RowGood(PrimeTab[0])
    ensures RowGood(PrimeTab[1])
    ensures RowGood(PrimeTab[2])
    ensures RowGood(PrimeTab[3])
    ensures RowGood(PrimeTab[4])
  {
    Powers2();
  }

  lemma Rows5()
    ensures RowGood(PrimeTab[5])
    ensures RowGood(PrimeTab[6])
    ensures RowGood(PrimeTab[7])
    ensures RowGood(PrimeTab[8])
    ensures RowGood(PrimeTab[9])
  {
    Powers2();
  }

  lemma Rows10()
    ensures RowGood(PrimeTab[10])
    ensures RowGood(PrimeTab[11])
    ensures RowGood(PrimeTab[12])
    ensures RowGood(PrimeTab[13])
    ensures RowGood(PrimeTab[14])
  {
    Powers12();
  }

  lemma Rows15()
    ensures RowGood(PrimeTab[15])
    ensures RowGood(PrimeTab[16])
    ensures RowGood(PrimeTab[17])
    ensures RowGood(PrimeTab[18])
    ensures RowGood(PrimeTab[19])
  {
    Powers12();
  }

  lemma Rows20()
    ensures RowGood(PrimeTab[20])
    ensures RowGood(PrimeTab[21])
    ensures RowGood(PrimeTab[22])
    ensures RowGood(PrimeTab[23])
    ensures RowGood(PrimeTab[24])
  {
    Powers22();
  }

  lemma Rows25()
    ensures RowGood(PrimeTab[25])
    ensures RowGood(PrimeTab[26])
    ensures RowGood(PrimeTab[27])
    ensures RowGood(PrimeTab[28])
    ensures RowGood(PrimeTab[29])
  {
    Powers22();
  }

  lemma RowFrom0(i: nat)
    requires 0 <= i <= 4
    ensures RowGood(PrimeTab[i])
  {
    Rows0();
    assert i == 0 || i == 1 || i == 2 || i == 3 || i == 4;
  }

  lemma RowFrom5(i: nat)
    requires 5 <= i <= 9
    ensures RowGood(PrimeTab[i])
  {
    Rows5();
    assert i == 5 || i == 6 || i == 7 || i == 8 || i == 9;
  }

  lemma RowFrom10(i: nat)
    requires 10 <= i <= 14
    ensures RowGood(PrimeTab[i])
  {
    Rows10();
    assert i == 10 || i == 11 || i == 12 || i == 13 || i == 14;
  }

  lemma RowFrom15(i: nat)
    requires 15 <= i <= 19
    ensures RowGood(PrimeTab[i])
  {
    Rows15();
    assert i == 15 || i == 16 || i == 17 || i == 18 || i == 19;
  }

  lemma RowFrom20(i: nat)
    requires 20 <= i <= 24
    ensures RowGood(PrimeTab[i])
  {
    Rows20();
    assert i == 20 || i == 21 || i == 22 || i == 23 || i == 24;
  }

  lemma RowFrom25(i: nat)
    requires 25 <= i <= 29
    ensures RowGood(PrimeTab[i])
  {
    Rows25();
    assert i == 25 || i == 26 || i == 27 || i == 28 || i == 29;
  }

  lemma EveryRow(i: nat)
    requires i < |PrimeTab|
    ensures RowGood(PrimeTab[i])
  {
    if i <= 4 { RowFrom0(i); } else if i <= 9 { RowFrom5(i); } else if i <= 14 { RowFrom10(i); } else if i <= 19 { RowFrom15(i); } else if i <= 24 { RowFrom20(i); } else { RowFrom25(i); }
  }

  // ---------- Probing ----------

  ghost predicate Prime(p: nat) {
    p >= 2 && forall d :: 2 <= d < p ==> p % d != 0
  }

  lemma MultipleOf(k: nat, p: nat)
    requires 0 < p
    ensures k * p % p == 0
  {
    assert (k + 1) * p == k * p + p;
    QuotientIs(k * p, p, k);
  }

  /** A multiple of p stays one when a is replaced by p mod a. */
  lemma Descends(p: nat, a: nat, b: nat)
    requires 0 < a && 0 < p && a * b % p == 0
    ensures p % a * b % p == 0
  {
    var q, r, k := p / a, p % a, a * b / p;
    assert p == q * a + r && a * b == k * p;
    assert r * b == p * b - q * (a * b) by { assert (q * a + r) * b == q * (a * b) + r * b; }
    assert q * (a * b) == q * k * p;
    assert r * b == (b - q * k) * p;
    assert b - q * k >= 0 by { CancelLess(-1, b - q * k, p); }
    MultipleOf(b - q * k, p);
  }

  /** Euclid's lemma. */
  lemma {:induction false} NoMultiple(p: nat, a: nat, b: nat)
    requires Prime(p) && 0 < a < p && 0 < b < p
    ensures a * b % p != 0
    decreases a
  {
    if a > 1 {
      assert p % a != 0;
      NoMultiple(p, p % a, b);
      if a * b % p == 0 { Descends(p, a, b); }
    }
  }

  function Probe(h1: nat, h2: nat, n: nat, t: nat): (r: nat)
    requires n > 0
    ensures r < n
  {
    (h1 + t * h2) % n
  }

  lemma EqualRemainders(x: nat, y: nat, n: nat)
    requires 0 < n && x <= y && x % n == y % n
    ensures (y - x) % n == 0
  {
    var a, b := x / n, y / n;
    assert y - x == (b - a) * n by { assert x == a * n + x % n && y == b * n + y % n; }
    assert b - a >= 0 by { CancelLess(-1, b - a, n); }
    MultipleOf(b - a, n);
  }

  lemma ProbesDiffer(h1: nat, h2: nat, n: nat, s: nat, t: nat)
    requires Prime(n) && 0 < h2 < n && s < t < n
    ensures Probe(h1, h2, n, s) != Probe(h1, h2, n, t)
  {
    NoMultiple(n, t - s, h2);
    assert (h1 + t * h2) - (h1 + s * h2) == (t - s) * h2;
    ScaleAtMost(s, t, h2);
    if Probe(h1, h2, n, s) == Probe(h1, h2, n, t) {
      EqualRemainders(h1 + s * h2, h1 + t * h2, n);
    }
  }

  function Probed(h1: nat, h2: nat, n: nat, k: nat): set<nat>
    requires n > 0
  {
    set t: nat | t < k :: Probe(h1, h2, n, t)
  }

  lemma {:induction false} ProbedSize(h1: nat, h2: nat, n: nat, k: nat)
    requires Prime(n) && 0 < h2 < n && k <= n
    ensures |Probed(h1, h2, n, k)| == k
  {
    if k == 0 {
      assert Probed(h1, h2, n, k) == {};
    } else {
      ProbedSize(h1, h2, n, k - 1);
      forall s: nat | s < k - 1 ensures Probe(h1, h2, n, s) != Probe(h1, h2, n, k - 1) {
        ProbesDiffer(h1, h2, n, s, k - 1);
      }
      assert Probed(h1, h2, n, k) == Probed(h1, h2, n, k - 1) + {Probe(h1, h2, n, k - 1)};
    }
  }

  /** The probe sequence visits every slot. */
  lemma Covers(h1: nat, h2: nat, n: nat, e: nat) returns (t: nat)
    requires Prime(n) && 0 < h2 < n && e < n
    ensures t < n && Probe(h1, h2, n, t) == e
  {
    ProbedSize(h1, h2, n, n);
    var all := Below(n);
    SameSize(Probed(h1, h2, n, n), all);
    assert e in Probed(h1, h2, n, n);
    t :| t < n && Probe(h1, h2, n, t) == e;
  }

  /** One step of the loop, on 32-bit words. */
  function NextIndex(index: nat, h2: nat, n: nat): nat {
    var i := Wrap(index + h2);
    if i >= n then Wrap(i - n) else i
  }

  /** The step is taken modulo the size exactly if the sum does not wrap, as for every size up to 2^31; in the
      last row of the table it can. */
  lemma NextIndexExact(index: nat, h2: nat, n: nat)
    requires index < n < Word && 0 < h2 < n
    ensures NextIndex(index, h2, n) == (index + h2) % n <==> index + h2 < Word
    ensures n <= 0x8000_0000 ==> index + h2 < Word
  {
    var sum := index + h2;
    assert sum % n == if sum < n then sum else sum - n by { Reduced(sum, n); }
    assert Wrap(sum) == if sum < Word then sum else sum - Word by { Reduced(sum, Word); }
    if Wrap(sum) >= n { NoWrap(Wrap(sum) - n); }
  }

  lemma Reduced(x: nat, n: nat)
    requires x < 2 * n
    ensures x % n == if x < n then x else x - n
  {
  }

  lemma LastRowWraps()
    ensures var n := PrimeTab[29].prime; NextIndex(n - 1, n - 2, n) != (n - 1 + n - 2) % n
  {
  }

  lemma ProbeStep(h1: nat, h2: nat, n: nat, t: nat)
    requires 0 < h2 < n <= 0x8000_0000
    ensures NextIndex(Probe(h1, h2, n, t), h2, n) == Probe(h1, h2, n, t + 1)
  {
    var x := h1 + t * h2;
    NextIndexExact(x % n, h2, n);
    assert h1 + (t + 1) * h2 == x + h2;
    RemainderPlus(x, h2, n);
  }

  lemma RemainderPlus(x: nat, y: nat, n: nat)
    requires 0 < n
    ensures (x % n + y) % n == (x + y) % n
  {
    var k := x / n;
    var z := x % n + y;
    assert x == k * n + x % n;
    ShiftBy(z, k, n);
  }

  lemma ShiftBy(z: nat, k: nat, n: nat)
    requires 0 < n
    ensures (k * n + z) % n == z % n
  {
    var q, r := z / n, z % n;
    assert z == q * n + r;
    assert k * n + z == (k + q) * n + r && (k + q + 1) * n == (k + q) * n + n;
    QuotientIs(k * n + z, n, k + q);
  }
}
