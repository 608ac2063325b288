/** 64-bit machine words: long and unsigned long. */
module Words {

  const LONG_MAX: int := 0x7FFF_FFFF_FFFF_FFFF
  const ULL: int := 0x1_0000_0000_0000_0000

  /** Arithmetic on unsigned words is modulo 2^64. */
  function Wrap(x: int): (r: nat)
    ensures r < ULL
  {
    x % ULL
  }

  predicate InWord(signed: bool, x: int) {
    if signed then -LONG_MAX - 1 <= x <= LONG_MAX else 0 <= x < ULL
  }

  /** The word that holds `x`: two's complement, or modulo 2^64. */
  function Word(signed: bool, x: int): (r: int)
    ensures InWord(signed, r)
  {
    if signed && Wrap(x) > LONG_MAX then Wrap(x) - ULL else Wrap(x)
  }

  lemma WordHolds(signed: bool, x: int)
    requires InWord(signed, x)
    ensures Word(signed, x) == x
  {
  }

  /** One turn around the word. */
  lemma WordAround(signed: bool, x: int)
    requires !InWord(signed, x) && (InWord(signed, x - ULL) || InWord(signed, x + ULL))
    ensures Word(signed, x) == if InWord(signed, x - ULL) then x - ULL else x + ULL
  {
  }

  lemma WrapHolds(x: int)
    requires 0 <= x < ULL
    ensures Wrap(x) == x
  {
  }

  lemma WrapAround(x: int)
    requires ULL <= x < 2 * ULL
    ensures Wrap(x) == x - ULL
  {
  }

  /** Sums may be reduced to words at any time. */
  lemma WordSum(signed: bool, x: int, y: int)
    ensures Word(signed, x + Word(signed, y)) == Word(signed, x + y)
  {
    WrapSum(x, y);
    WrapSum(x, y - ULL);
  }

  lemma WrapSum(x: int, y: int)
    ensures Wrap(x + Wrap(y)) == Wrap(x + y) && Wrap(x + (Wrap(y) - ULL)) == Wrap(x + y)
  {
    var q := y / ULL;
    assert y == q * ULL + Wrap(y);
  }
}
