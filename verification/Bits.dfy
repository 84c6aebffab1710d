/** The numbers that words of 32 bits stand for: what adding, masking and shifting words does to the numbers. */
module Bits {
  const TWO_16 := 0x1_0000
  const TWO_31 := 0x8000_0000
  const TWO_32 := 0x1_0000_0000

  predicate Odd(w: bv32) { w & 1 == 1 }

  function Half(w: bv32): bv32 { w >> 1 }

  function LowBit(w: bv32): nat { if Odd(w) then 1 else 0 }

  /** The lowest k bits, read as a number in base two. */
  function Lows(w: bv32, k: nat): nat {
    if k == 0 then 0 else LowBit(w) + 2 * Lows(Half(w), k - 1)
  }

  /** The number that the word stands for. */
  function Val(w: bv32): nat { Lows(w, 32) }

  function Pow2(k: nat): nat { if k == 0 then 1 else 2 * Pow2(k - 1) }

  function Longer(m: bv32): bv32 { (m << 1) | 1 }

  /** The lowest k bits set. */
  function Mask(k: nat): bv32 { if k == 0 then 0 else Longer(Mask(k - 1)) }

  function Cut(w: bv32, m: bv32): bv32 { w & m }

  lemma {:induction false} LowsRange(w: bv32, k: nat)
    ensures Lows(w, k) < Pow2(k)
  {
    if k != 0 {
      LowsRange(Half(w), k - 1);
    }
  }

  lemma PowValues()
    ensures Pow2(16) == TWO_16 && Pow2(32) == TWO_32
  {
    assert Pow2(4) == 0x10;
    assert Pow2(8) == 0x100;
    assert Pow2(12) == 0x1000;
    assert Pow2(16) == 0x1_0000;
    assert Pow2(20) == 0x10_0000;
    assert Pow2(24) == 0x100_0000;
    assert Pow2(28) == 0x1000_0000;
  }

  lemma ValRange(w: bv32)
    ensures Val(w) < TWO_32
  {
    LowsRange(w, 32);
    PowValues();
  }

  // ---------------------------------------------------------------- words that agree on their lowest bits

  lemma MaskValues()
    ensures Mask(16) == 0xffff && Mask(31) == 0x7fff_ffff && Mask(32) == 0xffff_ffff
  {
    assert Mask(2) == 0x3;
    assert Mask(4) == 0xf;
    assert Mask(6) == 0x3f;
    assert Mask(8) == 0xff;
    assert Mask(10) == 0x3ff;
    assert Mask(12) == 0xfff;
    assert Mask(14) == 0x3fff;
    assert Mask(16) == 0xffff;
    assert Mask(18) == 0x3_ffff;
    assert Mask(20) == 0xf_ffff;
    assert Mask(22) == 0x3f_ffff;
    assert Mask(24) == 0xff_ffff;
    assert Mask(26) == 0x3ff_ffff;
    assert Mask(28) == 0xfff_ffff;
    assert Mask(30) == 0x3fff_ffff;
  }

  function Join(h: bv32, b: bv32): bv32 { (h << 1) | b }

  lemma JoinInjective(h: bv32, b: bv32, h': bv32, b': bv32)
    requires h <= 0x7fff_ffff && h' <= 0x7fff_ffff && b <= 1 && b' <= 1
    ensures Join(h, b) == Join(h', b') <==> h == h' && b == b'
  {
    assert Half(Join(h, b)) == h && Join(h, b) & 1 == b;
    assert Half(Join(h', b')) == h' && Join(h', b') & 1 == b';
  }

  lemma CutJoins(x: bv32, m: bv32)
    ensures Cut(x, Longer(m)) == Join(Cut(Half(x), m), x & 1)
    ensures Cut(Half(x), m) <= 0x7fff_ffff && x & 1 <= 1 && (Odd(x) <==> x & 1 == 1)
  {
  }

  lemma CutLonger(x: bv32, y: bv32, m: bv32)
    ensures Cut(x, Longer(m)) == Cut(y, Longer(m)) <==> (Odd(x) <==> Odd(y)) && Cut(Half(x), m) == Cut(Half(y), m)
  {
    CutJoins(x, m);
    CutJoins(y, m);
    var b, b' := x & 1, y & 1;
    hide *;
    JoinInjective(Cut(Half(x), m), b, Cut(Half(y), m), b');
  }

  /** The lowest k bits decide the number that they stand for, and are decided by it. */
  lemma {:induction false} LowsAgree(x: bv32, y: bv32, k: nat)
    ensures Cut(x, Mask(k)) == Cut(y, Mask(k)) <==> Lows(x, k) == Lows(y, k)
  {
    if k == 0 {
      assert Cut(x, 0) == 0 == Cut(y, 0);
    } else {
      CutLonger(x, y, Mask(k - 1));
      hide Cut, Longer, Half, Odd;
      LowsAgree(Half(x), Half(y), k - 1);
    }
  }

  lemma ValInjective(x: bv32, y: bv32)
    requires Val(x) == Val(y)
    ensures x == y
  {
    LowsAgree(x, y, 32);
    MaskValues();
  }

  lemma LongerIn(m: bv32, n: bv32)
    requires Cut(m, n) == m
    ensures Cut(Longer(m), Longer(n)) == Longer(m)
  {
  }

  lemma {:induction false} SmallerMask(j: nat, k: nat)
    requires j <= k
    ensures Cut(Mask(j), Mask(k)) == Mask(j)
  {
    if j == 0 {
      assert Cut(0, Mask(k)) == 0;
    } else {
      LongerIn(Mask(j - 1), Mask(k - 1)) by { SmallerMask(j - 1, k - 1); }
      hide Cut, Longer;
    }
  }

  // ---------------------------------------------------------------- addition

  /** Addition modulo 2^32. */
  function Plus(x: bv32, y: bv32): bv32 { x + y }

  lemma PlusLaws(a: bv32, b: bv32, c: bv32)
    ensures Plus(a, b) == Plus(b, a) && Plus(Plus(a, b), c) == Plus(a, Plus(b, c))
  {
    assert Plus(Plus(a, b), c) == Plus(a + b, c) == (a + b) + c;
    assert Plus(a, Plus(b, c)) == Plus(a, b + c) == a + (b + c);
  }

  lemma PlusSwap(a: bv32, b: bv32, c: bv32, d: bv32)
    ensures Plus(Plus(a, b), Plus(c, d)) == Plus(Plus(a, c), Plus(b, d))
  {
    hide Plus;
    PlusLaws(a, b, Plus(c, d));
    PlusLaws(b, c, d);
    PlusLaws(c, b, d);
    PlusLaws(a, c, Plus(b, d));
  }

  function One(c: bool): bv32 { if c then 1 else 0 }

  function Sum(x: bv32, y: bv32, c: bool): bv32 { Plus(Plus(x, y), One(c)) }

  /** The carry out of the lowest bit. */
  predicate Carry(x: bv32, y: bv32, c: bool) {
    if c then Odd(x) || Odd(y) else Odd(x) && Odd(y)
  }

  lemma SumLowBit(x: bv32, y: bv32, c: bool)
    ensures LowBit(Sum(x, y, c)) + 2 * (if Carry(x, y, c) then 1 else 0)
            == LowBit(x) + LowBit(y) + if c then 1 else 0
  {
  }

  function Twice(z: bv32, s: bv32): bv32 { Plus(Plus(z, z), s) }

  lemma TwoHalves(x: bv32)
    ensures x == Twice(Half(x), x & 1) && x & 1 <= 1
  {
  }

  lemma HalfOfTwice(z: bv32, s: bv32)
    requires s <= 1
    ensures Half(Twice(z, s)) == Cut(z, 0x7fff_ffff)
  {
  }

  lemma AddTwice(a: bv32, b: bv32, i: bv32, j: bv32, c: bool, k: bool, s: bv32)
    requires Sum(i, j, c) == Twice(One(k), s)
    ensures Sum(Twice(a, i), Twice(b, j), c) == Twice(Sum(a, b, k), s)
  {
    hide Plus, One;
    var p := Plus(a, b);
    PlusSwap(Plus(a, a), i, Plus(b, b), j);
    PlusSwap(a, a, b, b);
    PlusLaws(Plus(p, p), Plus(i, j), One(c));
    PlusLaws(Plus(p, p), Plus(One(k), One(k)), s);
    PlusSwap(p, p, One(k), One(k));
  }

  lemma LowBitsAdd(x: bv32, y: bv32, c: bool) returns (s: bv32)
    ensures s <= 1 && Sum(x & 1, y & 1, c) == Twice(One(Carry(x, y, c)), s)
  {
    s := (x & 1) ^ (y & 1) ^ One(c);
  }

  lemma HalfOfSum(x: bv32, y: bv32, c: bool)
    ensures Half(Sum(x, y, c)) == Cut(Sum(Half(x), Half(y), Carry(x, y, c)), 0x7fff_ffff)
  {
    var s := LowBitsAdd(x, y, c);
    var i, j := x & 1, y & 1;
    TwoHalves(x);
    TwoHalves(y);
    hide *;
    AddTwice(Half(x), Half(y), i, j, c, Carry(x, y, c), s);
    HalfOfTwice(Sum(Half(x), Half(y), Carry(x, y, c)), s);
  }

  lemma CutCut(z: bv32, m: bv32, n: bv32)
    requires Cut(m, n) == m
    ensures Cut(Cut(z, n), m) == Cut(z, m)
  {
  }

  lemma TopBitApart(z: bv32, k: nat)
    requires k <= 31
    ensures Lows(Cut(z, 0x7fff_ffff), k) == Lows(z, k)
  {
    MaskValues();
    SmallerMask(k, 31);
    CutCut(z, Mask(k), Mask(31));
    LowsAgree(Cut(z, Mask(31)), z, k);
  }

  /** Adding words adds their lowest k bits, up to a carry out of them. */
  lemma {:induction false} AddLows(x: bv32, y: bv32, c: bool, k: nat) returns (out: bool)
    requires k <= 32
    ensures Lows(Sum(x, y, c), k) + (if out then Pow2(k) else 0) == Lows(x, k) + Lows(y, k) + if c then 1 else 0
    decreases k
  {
    if k == 0 {
      out := c;
    } else {
      SumLowBit(x, y, c);
      HalfOfSum(x, y, c);
      TopBitApart(Sum(Half(x), Half(y), Carry(x, y, c)), k - 1);
      hide Sum, Carry, Half, Cut, LowBit;
      out := AddLows(Half(x), Half(y), Carry(x, y, c), k - 1);
    }
  }

  /** Adding words adds numbers modulo 2^32. */
  lemma PlusVals(x: bv32, y: bv32)
    ensures Val(Plus(x, y)) == (Val(x) + Val(y)) % TWO_32
  {
    assert Sum(x, y, false) == Plus(x, y) by { PlusZero(Plus(x, y)); }
    hide Sum, Plus;
    var out := AddLows(x, y, false, 32);
    ValRange(Plus(x, y));
    PowValues();
  }

  lemma PlusZero(x: bv32)
    ensures Plus(x, 0) == x
  {
  }

  // ---------------------------------------------------------------- the two halves of a word

  /** The word without its lowest k bits. */
  function Drop(w: bv32, k: nat): bv32 { if k == 0 then w else Half(Drop(w, k - 1)) }

  lemma {:induction false} DropFirst(w: bv32, k: nat)
    requires k != 0
    ensures Drop(w, k) == Drop(Half(w), k - 1)
  {
    if k != 1 {
      DropFirst(w, k - 1);
    }
  }

  lemma Drop8(w: bv32)
    ensures Drop(w, 0) == w && Drop(w, 1) == w >> 1 && Drop(w, 2) == w >> 2 && Drop(w, 3) == w >> 3
    ensures Drop(w, 4) == w >> 4 && Drop(w, 5) == w >> 5 && Drop(w, 6) == w >> 6 && Drop(w, 7) == w >> 7
    ensures Drop(w, 8) == w >> 8
  {
    assert Drop(w, 1) == w >> 1;
    assert Drop(w, 2) == w >> 2;
    assert Drop(w, 3) == w >> 3;
    assert Drop(w, 4) == w >> 4;
    assert Drop(w, 5) == w >> 5;
    assert Drop(w, 6) == w >> 6;
    assert Drop(w, 7) == w >> 7;
  }

  lemma Drop16(w: bv32)
    ensures Drop(w, 16) == w >> 16
  {
    assert Drop(w, 1) == w >> 1;
    assert Drop(w, 2) == w >> 2;
    assert Drop(w, 3) == w >> 3;
    assert Drop(w, 4) == w >> 4;
    assert Drop(w, 5) == w >> 5;
    assert Drop(w, 6) == w >> 6;
    assert Drop(w, 7) == w >> 7;
    assert Drop(w, 8) == w >> 8;
    assert Drop(w, 9) == w >> 9;
    assert Drop(w, 10) == w >> 10;
    assert Drop(w, 11) == w >> 11;
    assert Drop(w, 12) == w >> 12;
    assert Drop(w, 13) == w >> 13;
    assert Drop(w, 14) == w >> 14;
    assert Drop(w, 15) == w >> 15;
  }

  lemma TwiceAsMuch(p: nat, n: nat)
    ensures (2 * p) * n == 2 * (p * n)
  {
  }

  lemma {:induction false} LowsAndRest(w: bv32, j: nat, k: nat)
    ensures Lows(w, j + k) == Lows(w, j) + Pow2(j) * Lows(Drop(w, j), k)
    decreases j
  {
    if j != 0 {
      LowsAndRest(Half(w), j - 1, k);
      DropFirst(w, j);
      TwiceAsMuch(Pow2(j - 1), Lows(Drop(w, j), k));
      hide Half, LowBit, Drop;
    }
  }

  function High(w: bv32): bv32 { w >> 16 }

  function Low(w: bv32): bv32 { w & 0xffff }

  /** The high half, with ones coming in from the left. */
  function HighFilled(w: bv32): bv32 { (w >> 16) | 0xffff_0000 }

  function Joined(h: bv32, l: bv32): bv32 { (h << 16) | Low(l) }

  lemma PartsOfParts(w: bv32)
    ensures High(High(w)) == 0 && High(Low(w)) == 0 && Low(Low(w)) == Low(w)
  {
  }

  lemma PartsOfFilled(w: bv32)
    ensures High(HighFilled(w)) == 0xffff && Low(HighFilled(w)) == Low(High(w))
  {
  }

  lemma PartsOfJoined(h: bv32, l: bv32)
    ensures High(Joined(h, l)) == Low(h) && Low(Joined(h, l)) == Low(l)
  {
  }

  lemma DivideBack(low: nat, high: nat)
    requires low < TWO_16
    ensures (low + TWO_16 * high) % TWO_16 == low && (low + TWO_16 * high) / TWO_16 == high
  {
  }

  /** A word stands for its low half plus 65536 times its high half. */
  lemma ValOfHalves(w: bv32)
    ensures Val(w) == Lows(w, 16) + TWO_16 * Lows(High(w), 16)
    ensures Lows(w, 16) < TWO_16 && Lows(High(w), 16) < TWO_16
    ensures Lows(w, 16) == Val(w) % TWO_16 && Lows(High(w), 16) == Val(w) / TWO_16
  {
    assert Drop(w, 16) == High(w) by { Drop16(w); }
    hide High, Drop, Lows;
    LowsAndRest(w, 16, 16);
    LowsRange(w, 16);
    LowsRange(High(w), 16);
    PowValues();
    hide Pow2;
    DivideBack(Lows(w, 16), Lows(High(w), 16));
  }

  lemma SameLowHalf(x: bv32, y: bv32)
    requires Low(x) == Low(y)
    ensures Lows(x, 16) == Lows(y, 16)
  {
    MaskValues();
    LowsAgree(x, y, 16);
  }

  lemma {:induction false} LowsOfZero(k: nat)
    ensures Lows(0, k) == 0
  {
    if k != 0 {
      assert Half(0) == 0;
      LowsOfZero(k - 1);
    }
  }

  lemma {:induction false} LowsOfMask(k: nat)
    requires k <= 32
    ensures Lows(Mask(k), k) == Pow2(k) - 1
  {
    if k != 0 {
      var m := Mask(k - 1);
      assert Half(Longer(m)) == Cut(m, 0x7fff_ffff) && Odd(Longer(m));
      TopBitApart(m, k - 1);
      LowsOfMask(k - 1);
      hide Half, Longer, Odd, Cut;
    }
  }

  lemma ValOfOnes()
    ensures Val(0) == 0 && Val(1) == 1 && Val(0xffff) == TWO_16 - 1 && Val(0xffff_ffff) == TWO_32 - 1
    ensures Lows(0xffff, 16) == TWO_16 - 1
  {
    LowsOfZero(32);
    LowsOfZero(31);
    assert Half(1) == 0;
    LowsOfZero(16);
    LowsOfMask(16);
    LowsOfMask(32);
    ValOfHalves(0xffff);
    MaskValues();
    PowValues();
  }

  /** Masking with 65535 keeps the low half; shifting right by 16 leaves the high half. */
  lemma ValOfParts(w: bv32)
    ensures Val(Low(w)) == Val(w) % TWO_16 && Val(High(w)) == Val(w) / TWO_16
  {
    PartsOfParts(w);
    hide *;
    ValOfHalves(w);
    ValOfHalves(Low(w));
    ValOfHalves(High(w));
    SameLowHalf(Low(w), w);
    LowsOfZero(16);
  }

  /** The same, with ones coming in from the left. */
  lemma ValOfHighFilled(w: bv32)
    ensures Val(HighFilled(w)) == Val(w) / TWO_16 + TWO_32 - TWO_16
  {
    PartsOfFilled(w);
    assert TWO_16 * (TWO_16 - 1) == TWO_32 - TWO_16;
    hide *;
    ValOfHalves(w);
    ValOfHalves(HighFilled(w));
    SameLowHalf(HighFilled(w), High(w));
    ValOfOnes();
    assert Lows(High(HighFilled(w)), 16) == TWO_16 - 1;
  }

  /** Putting two halves together. */
  lemma ValOfJoined(h: bv32, l: bv32)
    ensures Val(Joined(h, l)) == TWO_16 * (Val(h) % TWO_16) + Val(l) % TWO_16
  {
    PartsOfJoined(h, l);
    PartsOfParts(h);
    hide *;
    var w := Joined(h, l);
    ValOfHalves(w);
    ValOfHalves(h);
    ValOfHalves(l);
    SameLowHalf(w, l);
    SameLowHalf(High(w), h);
  }

  // ---------------------------------------------------------------- numbers as words

  /** The number modulo 2^32 in base two. */
  function OfNat(n: nat): bv32 {
    if n == 0 then 0 else Plus(Plus(OfNat(n / 2), OfNat(n / 2)), One(n % 2 == 1))
  }

  lemma ValOfOne(c: bool)
    ensures Val(One(c)) == if c then 1 else 0
  {
    ValOfOnes();
    hide Val;
  }

  lemma TwiceModulo(n: nat)
    ensures ((n / 2 % TWO_32 + n / 2 % TWO_32) % TWO_32 + n % 2) % TWO_32 == n % TWO_32
  {
    assert n == n / 2 + n / 2 + n % 2;
  }

  lemma OfNatStep(n: nat)
    ensures OfNat(n) == if n == 0 then 0 else Plus(Plus(OfNat(n / 2), OfNat(n / 2)), One(n % 2 == 1))
  {
    hide Plus, One;
  }

  lemma {:induction false} ValOfNat(n: nat)
    ensures Val(OfNat(n)) == n % TWO_32
  {
    hide *;
    OfNatStep(n);
    if n == 0 {
      ValOfOnes();
    } else {
      var h := OfNat(n / 2);
      ValOfOne(n % 2 == 1);
      ValOfNat(n / 2);
      PlusVals(h, h);
      PlusVals(Plus(h, h), One(n % 2 == 1));
      TwiceModulo(n);
    }
  }

  /** The word of a number, negative ones included: what every bitwise operator of JavaScript makes of its operands. */
  function WordOf(x: int): bv32 { OfNat(x % TWO_32) }

  /** The number of a word, with a sign: what these operators make of their result. */
  function NumberOf(w: bv32): int {
    if Val(w) < TWO_31 then Val(w) else Val(w) - TWO_32
  }

  lemma ValOfWord(x: int)
    ensures Val(WordOf(x)) == x % TWO_32
  {
    ValOfNat(x % TWO_32);
  }

  /** Words and the numbers from -2^31 up to 2^31 stand for each other, and addition of words is addition modulo 2^32. */
  lemma WordsAreNumbers(w: bv32, x: int)
    ensures -TWO_31 <= NumberOf(w) < TWO_31 && WordOf(NumberOf(w)) == w
    ensures NumberOf(WordOf(x)) % TWO_32 == x % TWO_32
    ensures -TWO_31 <= x < TWO_31 ==> NumberOf(WordOf(x)) == x
  {
    hide Val, WordOf;
    ValRange(w);
    ValOfWord(x);
    ValRange(WordOf(x));
    ValOfWord(NumberOf(w));
    ValInjective(WordOf(NumberOf(w)), w);
  }

  lemma SumModulo(x: int, y: int)
    ensures (x % TWO_32 + y % TWO_32) % TWO_32 == (x + y) % TWO_32
  {
  }

  lemma PlusOfWords(x: int, y: int)
    ensures Plus(WordOf(x), WordOf(y)) == WordOf(x + y)
  {
    ValOfWord(x);
    ValOfWord(y);
    ValOfWord(x + y);
    hide *;
    PlusVals(WordOf(x), WordOf(y));
    SumModulo(x, y);
    ValInjective(Plus(WordOf(x), WordOf(y)), WordOf(x + y));
  }

  // ---------------------------------------------------------------- literal words

  /** The number of the lowest eight bits, written out. */
  function ByteOfBits(w: bv32): nat {
    (if w & 0x1 == 0 then 0 else 1) + (if w & 0x2 == 0 then 0 else 2)
    + (if w & 0x4 == 0 then 0 else 4) + (if w & 0x8 == 0 then 0 else 8)
    + (if w & 0x10 == 0 then 0 else 16) + (if w & 0x20 == 0 then 0 else 32)
    + (if w & 0x40 == 0 then 0 else 64) + (if w & 0x80 == 0 then 0 else 128)
  }

  lemma ShiftedBit(w: bv32)
    ensures ByteOfBits(w) == LowBit(w) + 2 * LowBit(w >> 1) + 4 * LowBit(w >> 2) + 8 * LowBit(w >> 3)
                             + 16 * LowBit(w >> 4) + 32 * LowBit(w >> 5) + 64 * LowBit(w >> 6) + 128 * LowBit(w >> 7)
  {
  }

  lemma Unrolled(w: bv32)
    ensures Lows(w, 8) == LowBit(w) + 2 * LowBit(Drop(w, 1)) + 4 * LowBit(Drop(w, 2)) + 8 * LowBit(Drop(w, 3))
                          + 16 * LowBit(Drop(w, 4)) + 32 * LowBit(Drop(w, 5)) + 64 * LowBit(Drop(w, 6))
                          + 128 * LowBit(Drop(w, 7))
  {
    assert Lows(Drop(w, 8), 0) == 0 && Drop(w, 0) == w;
    hide *;
    LowsStep(w, 0, 7);
    LowsStep(w, 1, 6);
    LowsStep(w, 2, 5);
    LowsStep(w, 3, 4);
    LowsStep(w, 4, 3);
    LowsStep(w, 5, 2);
    LowsStep(w, 6, 1);
    LowsStep(w, 7, 0);
  }

  lemma Lows8(w: bv32)
    ensures Lows(w, 8) == ByteOfBits(w)
  {
    Unrolled(w);
    ShiftedBit(w);
    Drop8(w);
    hide *;
  }

  lemma LowsStep(w: bv32, j: nat, k: nat)
    ensures Lows(Drop(w, j), k + 1) == LowBit(Drop(w, j)) + 2 * Lows(Drop(w, j + 1), k)
  {
  }

  /** The number of a word, written out. */
  function Spelled(w: bv32): nat {
    ByteOfBits(w) + 0x100 * ByteOfBits(w >> 8) + 0x1_0000 * ByteOfBits(w >> 16) + 0x100_0000 * ByteOfBits(w >> 16 >> 8)
  }

  lemma HalfSpelled(w: bv32)
    ensures Lows(w, 16) == ByteOfBits(w) + 0x100 * ByteOfBits(w >> 8)
  {
    assert Pow2(8) == 0x100;
    assert Drop(w, 8) == w >> 8 by { Drop8(w); }
    hide *;
    LowsAndRest(w, 8, 8);
    Lows8(w);
    Lows8(w >> 8);
  }

  lemma ValSpelled(w: bv32)
    ensures Val(w) == Spelled(w)
  {
    var high := w >> 16;
    assert High(w) == high;
    hide High, ByteOfBits, Lows, Val;
    ValOfHalves(w);
    HalfSpelled(w);
    HalfSpelled(high);
  }

  /** The number of a literal word, whatever its sign. */
  lemma WordSpelled(w: bv32, n: int)
    requires n % TWO_32 == Spelled(w)
    ensures WordOf(n) == w
  {
    hide Spelled, WordOf, Val;
    ValSpelled(w);
    ValOfWord(n);
    ValInjective(WordOf(n), w);
  }
}
