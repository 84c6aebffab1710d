/** The two definitions of 32-bit addition in the script, on JavaScript numbers. Numbers are integers here: all sums
    that the script forms are far below 2^53, where JavaScript is exact. The bitwise operators work on the words of
    their operands and answer the number of the resulting word. */
module Md5Arithmetic {
  import opened Bits
  import R = Md5Rounds

  /** x & y */
  function And(x: int, y: int): int { NumberOf(WordOf(x) & WordOf(y)) }

  /** The bits that are set in either word. */
  function Either(u: bv32, v: bv32): bv32 { u | v }

  /** The low half moved up. */
  function Raised(u: bv32): bv32 { u << 16 }

  /** x | y */
  function Or(x: int, y: int): int { NumberOf(Either(WordOf(x), WordOf(y))) }

  /** x << 16 */
  function ShiftedLeft(x: int): int { NumberOf(Raised(WordOf(x))) }

  /** The number as the operators see it. */
  function ToInt32(x: int): int { NumberOf(WordOf(x)) }

  /** x >> 16, which keeps the sign. */
  function ShiftedRight(x: int): int {
    NumberOf(if ToInt32(x) < 0 then HighFilled(WordOf(x)) else High(WordOf(x)))
  }

  /** e + t & 4294967295 */
  function Add32(e: int, t: int): int {
    And(e + t, 4294967295)
  }

  /** The definition installed when the self-test fails: halves are added one after the other, with the carry. */
  function Add32ByHalves(e: int, t: int): int {
    var n := And(e, 65535) + And(t, 65535);
    var r := ShiftedRight(e) + ShiftedRight(t) + ShiftedRight(n);
    Or(ShiftedLeft(r), And(n, 65535))
  }

  lemma MaskWords()
    ensures WordOf(65535) == 0xffff && WordOf(4294967295) == 0xffff_ffff
  {
    ValOfOnes();
    ValOfWord(65535);
    ValOfWord(4294967295);
    hide WordOf, Val;
    ValInjective(WordOf(65535), 0xffff);
    ValInjective(WordOf(4294967295), 0xffff_ffff);
  }

  lemma AndWithMask(x: int)
    ensures And(x, 65535) == NumberOf(Low(WordOf(x))) && And(x, 4294967295) == ToInt32(x)
  {
    MaskWords();
    hide WordOf;
    var w := WordOf(x);
    assert w & 0xffff_ffff == w;
    hide NumberOf;
  }

  lemma LowModulo(x: int)
    ensures x % TWO_32 % TWO_16 == x % TWO_16
  {
  }

  /** Both operators take a number apart, whatever its sign. */
  lemma HalvesMakeWhole(x: int)
    ensures And(x, 65535) == x % TWO_16
    ensures ShiftedRight(x) * TWO_16 + And(x, 65535) == ToInt32(x)
  {
    var w := WordOf(x);
    AndWithMask(x);
    ValOfWord(x);
    ValRange(w);
    ValOfParts(w);
    ValOfHighFilled(w);
    LowModulo(x);
    hide WordOf, Val, High, HighFilled, Low, And;
  }

  lemma OrOfNumbers(u: bv32, v: bv32)
    ensures Or(NumberOf(u), NumberOf(v)) == NumberOf(Either(u, v))
  {
    WordsAreNumbers(u, 0);
    WordsAreNumbers(v, 0);
    hide WordOf, NumberOf, Either;
  }

  lemma JoinedIsOr(h: bv32, l: bv32)
    ensures Either(Raised(h), Low(l)) == Joined(h, l)
  {
  }

  /** Putting a high half and the low half of a number together, modulo 2^32. */
  lemma HalvesAreJoined(high: int, n: int)
    ensures Or(ShiftedLeft(high), And(n, 65535)) == NumberOf(Joined(WordOf(high), WordOf(n)))
    ensures Val(Joined(WordOf(high), WordOf(n))) == (TWO_16 * high + n % TWO_16) % TWO_32
  {
    AndWithMask(n);
    OrOfNumbers(Raised(WordOf(high)), Low(WordOf(n)));
    JoinedIsOr(WordOf(high), WordOf(n));
    ValOfJoined(WordOf(high), WordOf(n));
    ValOfWord(high);
    ValOfWord(n);
    HalvesModulo(high, n);
    hide WordOf, NumberOf, Val, Low, And, Or, Either, Raised, Joined;
  }

  lemma WholeTurns(x: int, q: int)
    requires 0 <= x < TWO_32
    ensures (x + TWO_32 * q) % TWO_32 == x
  {
  }

  lemma HalvesModulo(high: int, n: int)
    ensures TWO_16 * (high % TWO_32 % TWO_16) + n % TWO_32 % TWO_16 == (TWO_16 * high + n % TWO_16) % TWO_32
  {
    var a, b, q := high % TWO_16, n % TWO_16, high / TWO_16;
    LowModulo(high);
    LowModulo(n);
    assert TWO_16 * high + b == (TWO_16 * a + b) + TWO_32 * q;
    WholeTurns(TWO_16 * a + b, q);
  }

  lemma SignedSum(e: int, t: int)
    ensures (ToInt32(e) + ToInt32(t)) % TWO_32 == (e + t) % TWO_32
  {
    WordsAreNumbers(0, e);
    WordsAreNumbers(0, t);
    SumModulo(e, t);
    SumModulo(ToInt32(e), ToInt32(t));
    hide NumberOf, WordOf;
  }

  lemma CarryIsKept(e: int, t: int)
    ensures var n := And(e, 65535) + And(t, 65535);
      TWO_16 * (ShiftedRight(e) + ShiftedRight(t) + ShiftedRight(n)) + n % TWO_16 == ToInt32(e) + ToInt32(t)
  {
    var n := And(e, 65535) + And(t, 65535);
    HalvesMakeWhole(e);
    HalvesMakeWhole(t);
    HalvesMakeWhole(n);
    WordsAreNumbers(0, n);
    hide ShiftedRight, And;
  }

  /** Both definitions are addition modulo 2^32, for all numbers, and so they are the same. */
  lemma AddsAgree(e: int, t: int)
    ensures Add32ByHalves(e, t) == Add32(e, t)
    ensures Add32(e, t) % TWO_32 == (e + t) % TWO_32 && -TWO_31 <= Add32(e, t) < TWO_31
  {
    var n := And(e, 65535) + And(t, 65535);
    var r := ShiftedRight(e) + ShiftedRight(t) + ShiftedRight(n);
    CarryIsKept(e, t);
    SignedSum(e, t);
    HalvesAreJoined(r, n);
    AndWithMask(e + t);
    WordsAreNumbers(WordOf(e + t), e + t);
    ValOfWord(e + t);
    hide And, Or, ShiftedLeft, ShiftedRight, WordOf, NumberOf, Joined, Val;
    ValInjective(Joined(WordOf(r), WordOf(n)), WordOf(e + t));
  }

  /** The script's addition of numbers is the standard's addition of words. */
  lemma AddIsAdd32(x: R.Word, y: R.Word)
    ensures NumberOf(R.Add(x, y).bits) == Add32(NumberOf(x.bits), NumberOf(y.bits))
  {
    var i, j := NumberOf(x.bits), NumberOf(y.bits);
    WordsAreNumbers(x.bits, 0);
    WordsAreNumbers(y.bits, 0);
    PlusOfWords(i, j);
    AndWithMask(i + j);
    hide And, NumberOf, WordOf, Plus;
  }
}
