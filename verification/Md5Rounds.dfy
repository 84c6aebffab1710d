/** The tables and functions of RFC 1321, section 3.4, and the step functions of the script, which add JavaScript
    numbers modulo 2^32. */
module Md5Rounds {
  import opened Bits

  /** 32 bits. */
  datatype Word = Word(bits: bv32)

  /** A number as a word of 32 bits. */
  function NumberWord(x: int): Word { Word(WordOf(x)) }

  // ---------------------------------------------------------------- RFC 1321

  /** Addition modulo 2^32. */
  function Add(x: Word, y: Word): Word { Word(Plus(x.bits, y.bits)) }

  lemma AddLaws(a: Word, b: Word, c: Word)
    ensures Add(a, b) == Add(b, a) && Add(Add(a, b), c) == Add(a, Add(b, c))
  {
    PlusLaws(a.bits, b.bits, c.bits);
    hide Plus;
  }

  /** Rotation to the left. */
  function Rotated(w: bv32, s: nat): bv32
    requires s <= 32
  {
    w.RotateLeft(s)
  }

  function Left(w: Word, s: nat): Word
    requires s <= 32
  {
    Word(Rotated(w.bits, s))
  }

  datatype Regs = Regs(a: Word, b: Word, c: Word, d: Word)

  // The four auxiliary functions, on bits and on words.

  function FBits(x: bv32, y: bv32, z: bv32): bv32 { (x & y) | (!x & z) }

  function GBits(x: bv32, y: bv32, z: bv32): bv32 { (x & z) | (y & !z) }

  function HBits(x: bv32, y: bv32, z: bv32): bv32 { x ^ y ^ z }

  function IBits(x: bv32, y: bv32, z: bv32): bv32 { y ^ (x | !z) }

  function F(x: Word, y: Word, z: Word): Word { Word(FBits(x.bits, y.bits, z.bits)) }

  function G(x: Word, y: Word, z: Word): Word { Word(GBits(x.bits, y.bits, z.bits)) }

  function H(x: Word, y: Word, z: Word): Word { Word(HBits(x.bits, y.bits, z.bits)) }

  function I(x: Word, y: Word, z: Word): Word { Word(IBits(x.bits, y.bits, z.bits)) }

  function Auxiliary(round: nat, x: Word, y: Word, z: Word): Word {
    if round == 0 then F(x, y, z) else if round == 1 then G(x, y, z) else if round == 2 then H(x, y, z) else I(x, y, z)
  }

  /** The word of the block that operation i uses. */
  function K(i: nat): (k: nat)
    ensures k < 16
  {
    (if i < 16 then i else if i < 32 then 5 * i + 1 else if i < 48 then 3 * i + 5 else 7 * i) % 16
  }

  function Shift(i: nat): (s: nat)
    ensures IsShift(s)
  {
    if i < 16 then [7, 12, 17, 22][i % 4]
    else if i < 32 then [5, 9, 14, 20][i % 4]
    else if i < 48 then [4, 11, 16, 23][i % 4]
    else [6, 10, 15, 21][i % 4]
  }

  predicate IsShift(s: nat) {
    s in {4, 5, 6, 7, 9, 10, 11, 12, 14, 15, 16, 17, 20, 21, 22, 23}
  }

  /** The integer part of 4294967296 times abs(sin(i + 1)). */
  function T(i: nat): int
    requires i < 64
  {
    if i < 16 then T0(i) else if i < 32 then T1(i - 16) else if i < 48 then T2(i - 32) else T3(i - 48)
  }

  function T0(i: nat): int
    requires i < 16
  {
    match i
    case 0 => 0xd76aa478
    case 1 => 0xe8c7b756
    case 2 => 0x242070db
    case 3 => 0xc1bdceee
    case 4 => 0xf57c0faf
    case 5 => 0x4787c62a
    case 6 => 0xa8304613
    case 7 => 0xfd469501
    case 8 => 0x698098d8
    case 9 => 0x8b44f7af
    case 10 => 0xffff5bb1
    case 11 => 0x895cd7be
    case 12 => 0x6b901122
    case 13 => 0xfd987193
    case 14 => 0xa679438e
    case _ => 0x49b40821
  }

  function T1(i: nat): int
    requires i < 16
  {
    match i
    case 0 => 0xf61e2562
    case 1 => 0xc040b340
    case 2 => 0x265e5a51
    case 3 => 0xe9b6c7aa
    case 4 => 0xd62f105d
    case 5 => 0x02441453
    case 6 => 0xd8a1e681
    case 7 => 0xe7d3fbc8
    case 8 => 0x21e1cde6
    case 9 => 0xc33707d6
    case 10 => 0xf4d50d87
    case 11 => 0x455a14ed
    case 12 => 0xa9e3e905
    case 13 => 0xfcefa3f8
    case 14 => 0x676f02d9
    case _ => 0x8d2a4c8a
  }

  function T2(i: nat): int
    requires i < 16
  {
    match i
    case 0 => 0xfffa3942
    case 1 => 0x8771f681
    case 2 => 0x6d9d6122
    case 3 => 0xfde5380c
    case 4 => 0xa4beea44
    case 5 => 0x4bdecfa9
    case 6 => 0xf6bb4b60
    case 7 => 0xbebfbc70
    case 8 => 0x289b7ec6
    case 9 => 0xeaa127fa
    case 10 => 0xd4ef3085
    case 11 => 0x04881d05
    case 12 => 0xd9d4d039
    case 13 => 0xe6db99e5
    case 14 => 0x1fa27cf8
    case _ => 0xc4ac5665
  }

  function T3(i: nat): int
    requires i < 16
  {
    match i
    case 0 => 0xf4292244
    case 1 => 0x432aff97
    case 2 => 0xab9423a7
    case 3 => 0xfc93a039
    case 4 => 0x655b59c3
    case 5 => 0x8f0ccc92
    case 6 => 0xffeff47d
    case 7 => 0x85845dd1
    case 8 => 0x6fa87e4f
    case 9 => 0xfe2ce6e0
    case 10 => 0xa3014314
    case 11 => 0x4e0811a1
    case 12 => 0xf7537e82
    case 13 => 0xbd3af235
    case 14 => 0x2ad7d2bb
    case _ => 0xeb86d391
  }

  /** The new value of the first register of operation i, [abcd k s i] in the notation of the standard. */
  function Operation(i: nat, a: Word, b: Word, c: Word, d: Word, x: seq<Word>): Word
    requires |x| == 16 && i < 64
  {
    Add(b, Left(Add(Add(Add(a, Auxiliary(i / 16, b, c, d)), x[K(i)]), NumberWord(T(i))), Shift(i)))
  }

  /** The first n operations; after each of them the registers change their roles from ABCD to DABC. */
  function Operations(n: nat, r: Regs, x: seq<Word>): Regs
    requires |x| == 16 && n <= 64
  {
    if n == 0 then r
    else
      var p := Operations(n - 1, r, x);
      Regs(p.d, Operation(n - 1, p.a, p.b, p.c, p.d, x), p.b, p.c)
  }

  /** All 64 operations, and the addition of the registers as they were before. */
  function Process(r: Regs, x: seq<Word>): Regs
    requires |x| == 16
  {
    var p := Operations(64, r, x);
    Regs(Add(r.a, p.a), Add(r.b, p.b), Add(r.c, p.c), Add(r.d, p.d))
  }

  // ---------------------------------------------------------------- the script

  lemma SmallRotationIsTrue(w: bv32, s: nat)
    requires IsShift(s) && s <= 12
    ensures ((w << s) | (w >> (32 - s))) == w.RotateLeft(s)
  {
    if s == 4 {
      assert ((w << 4) | (w >> 28)) == w.RotateLeft(4);
    } else if s == 5 {
      assert ((w << 5) | (w >> 27)) == w.RotateLeft(5);
    } else if s == 6 {
      assert ((w << 6) | (w >> 26)) == w.RotateLeft(6);
    } else if s == 7 {
      assert ((w << 7) | (w >> 25)) == w.RotateLeft(7);
    } else if s == 9 {
      assert ((w << 9) | (w >> 23)) == w.RotateLeft(9);
    } else if s == 10 {
      assert ((w << 10) | (w >> 22)) == w.RotateLeft(10);
    } else if s == 11 {
      assert ((w << 11) | (w >> 21)) == w.RotateLeft(11);
    } else if s == 12 {
      assert ((w << 12) | (w >> 20)) == w.RotateLeft(12);
    }
  }

  lemma LargeRotationIsTrue(w: bv32, s: nat)
    requires IsShift(s) && 12 < s
    ensures ((w << s) | (w >> (32 - s))) == w.RotateLeft(s)
  {
    if s == 14 {
      assert ((w << 14) | (w >> 18)) == w.RotateLeft(14);
    } else if s == 15 {
      assert ((w << 15) | (w >> 17)) == w.RotateLeft(15);
    } else if s == 16 {
      assert ((w << 16) | (w >> 16)) == w.RotateLeft(16);
    } else if s == 17 {
      assert ((w << 17) | (w >> 15)) == w.RotateLeft(17);
    } else if s == 20 {
      assert ((w << 20) | (w >> 12)) == w.RotateLeft(20);
    } else if s == 21 {
      assert ((w << 21) | (w >> 11)) == w.RotateLeft(21);
    } else if s == 22 {
      assert ((w << 22) | (w >> 10)) == w.RotateLeft(22);
    } else if s == 23 {
      assert ((w << 23) | (w >> 9)) == w.RotateLeft(23);
    }
  }

  function RotateBits(w: bv32, s: nat): (r: bv32)
    requires IsShift(s)
    ensures r == Rotated(w, s)
  {
    assert ((w << s) | (w >> (32 - s))) == w.RotateLeft(s) by {
      if s <= 12 {
        SmallRotationIsTrue(w, s);
      } else {
        LargeRotationIsTrue(w, s);
      }
    }
    (w << s) | (w >> (32 - s))
  }

  function Rotate(w: Word, s: nat): Word
    requires IsShift(s)
  {
    Word(RotateBits(w.bits, s))
  }

  /** The common part of the four step functions. */
  function Cmn(q: Word, a: Word, b: Word, x: Word, s: nat, t: Word): Word
    requires IsShift(s)
  {
    Add(Rotate(Add(Add(a, q), Add(x, t)), s), b)
  }

  /** It is the step of the standard, with a true rotation. */
  lemma CmnIsStep(q: Word, a: Word, b: Word, x: Word, s: nat, t: Word)
    requires IsShift(s)
    ensures Cmn(q, a, b, x, s, t) == Add(b, Left(Add(Add(Add(a, q), x), t), s))
  {
    AddLaws(Add(a, q), x, t);
    AddLaws(Left(Add(Add(Add(a, q), x), t), s), b, b);
    hide Add, RotateBits, Rotated;
  }

  predicate IsNumber(t: int) {
    -0x8000_0000 <= t < 0x8000_0000
  }

  function Ff(a: Word, b: Word, c: Word, d: Word, x: Word, s: nat, t: int): Word
    requires IsShift(s) && IsNumber(t)
  {
    Cmn(Word((b.bits & c.bits) | (!b.bits & d.bits)), a, b, x, s, NumberWord(t))
  }

  function Gg(a: Word, b: Word, c: Word, d: Word, x: Word, s: nat, t: int): Word
    requires IsShift(s) && IsNumber(t)
  {
    Cmn(Word((b.bits & d.bits) | (c.bits & !d.bits)), a, b, x, s, NumberWord(t))
  }

  function Hh(a: Word, b: Word, c: Word, d: Word, x: Word, s: nat, t: int): Word
    requires IsShift(s) && IsNumber(t)
  {
    Cmn(Word(b.bits ^ c.bits ^ d.bits), a, b, x, s, NumberWord(t))
  }

  function Ii(a: Word, b: Word, c: Word, d: Word, x: Word, s: nat, t: int): Word
    requires IsShift(s) && IsNumber(t)
  {
    Cmn(Word(c.bits ^ (b.bits | !d.bits)), a, b, x, s, NumberWord(t))
  }

  /** The script's step of the given round. */
  function ScriptStep(round: nat, a: Word, b: Word, c: Word, d: Word, x: Word, s: nat, t: int): Word
    requires IsShift(s) && IsNumber(t)
  {
    if round == 0 then Ff(a, b, c, d, x, s, t)
    else if round == 1 then Gg(a, b, c, d, x, s, t)
    else if round == 2 then Hh(a, b, c, d, x, s, t)
    else Ii(a, b, c, d, x, s, t)
  }

  lemma FfIsCmn(a: Word, b: Word, c: Word, d: Word, x: Word, s: nat, t: int)
    requires IsShift(s) && IsNumber(t)
    ensures Ff(a, b, c, d, x, s, t) == Cmn(F(b, c, d), a, b, x, s, NumberWord(t))
  {
    hide Cmn, NumberWord;
  }

  lemma GgIsCmn(a: Word, b: Word, c: Word, d: Word, x: Word, s: nat, t: int)
    requires IsShift(s) && IsNumber(t)
    ensures Gg(a, b, c, d, x, s, t) == Cmn(G(b, c, d), a, b, x, s, NumberWord(t))
  {
    hide Cmn, NumberWord;
  }

  lemma HhIsCmn(a: Word, b: Word, c: Word, d: Word, x: Word, s: nat, t: int)
    requires IsShift(s) && IsNumber(t)
    ensures Hh(a, b, c, d, x, s, t) == Cmn(H(b, c, d), a, b, x, s, NumberWord(t))
  {
    hide Cmn, NumberWord;
  }

  lemma IiIsCmn(a: Word, b: Word, c: Word, d: Word, x: Word, s: nat, t: int)
    requires IsShift(s) && IsNumber(t)
    ensures Ii(a, b, c, d, x, s, t) == Cmn(I(b, c, d), a, b, x, s, NumberWord(t))
  {
    hide Cmn, NumberWord;
  }

  lemma StepIsCmn(round: nat, a: Word, b: Word, c: Word, d: Word, x: Word, s: nat, t: int)
    requires IsShift(s) && IsNumber(t)
    ensures ScriptStep(round, a, b, c, d, x, s, t) == Cmn(Auxiliary(round, b, c, d), a, b, x, s, NumberWord(t))
  {
    hide Cmn, NumberWord, F, G, H, I, Ff, Gg, Hh, Ii;
    if round == 0 {
      FfIsCmn(a, b, c, d, x, s, t);
    } else if round == 1 {
      GgIsCmn(a, b, c, d, x, s, t);
    } else if round == 2 {
      HhIsCmn(a, b, c, d, x, s, t);
    } else {
      IiIsCmn(a, b, c, d, x, s, t);
    }
  }

  /** The number stands for the constant of operation i. */
  predicate Stands(t: int, i: nat)
    requires i < 64
  {
    IsNumber(t) && t % TWO_32 == T(i)
  }

  lemma StandsForWord(t: int, i: nat)
    requires i < 64 && Stands(t, i)
    ensures NumberWord(t) == NumberWord(T(i))
  {
    hide T;
    assert T(i) % TWO_32 == t % TWO_32;
  }

  /** With the word, the shift and the constant of operation i, the script's step is operation i. */
  lemma StepIsOperation(i: nat, a: Word, b: Word, c: Word, d: Word, x: seq<Word>, t: int)
    requires |x| == 16 && i < 64 && Stands(t, i)
    ensures ScriptStep(i / 16, a, b, c, d, x[K(i)], Shift(i), t) == Operation(i, a, b, c, d, x)
  {
    StandsForWord(t, i);
    StepIsCmn(i / 16, a, b, c, d, x[K(i)], Shift(i), t);
    CmnIsStep(Auxiliary(i / 16, b, c, d), a, b, x[K(i)], Shift(i), NumberWord(T(i)));
    hide Cmn, Add, Left, T, NumberWord, Auxiliary, ScriptStep, K, Shift;
  }

  /** Four operations in a row, after which the registers are back in their places. */
  function Quad(q: nat, r: Regs, x: seq<Word>): Regs
    requires |x| == 16 && q < 16
  {
    var a := Operation(4 * q, r.a, r.b, r.c, r.d, x);
    var d := Operation(4 * q + 1, r.d, a, r.b, r.c, x);
    var c := Operation(4 * q + 2, r.c, d, a, r.b, x);
    var b := Operation(4 * q + 3, r.b, c, d, a, x);
    Regs(a, b, c, d)
  }

  lemma QuadIsFour(q: nat, r: Regs, x: seq<Word>)
    requires |x| == 16 && q < 16
    ensures Operations(4 * q + 4, r, x) == Quad(q, Operations(4 * q, r, x), x)
  {
    hide Operation;
    var p := Operations(4 * q, r, x);
    assert Operations(4 * q + 1, r, x) == Regs(p.d, Operation(4 * q, p.a, p.b, p.c, p.d, x), p.b, p.c);
    var p2 := Operations(4 * q + 2, r, x);
  }

  /** Four steps of the script in a row. */
  function ScriptQuad(q: nat, r: Regs, x: seq<Word>, t0: int, t1: int, t2: int, t3: int): Regs
    requires |x| == 16 && q < 16 && IsNumber(t0) && IsNumber(t1) && IsNumber(t2) && IsNumber(t3)
  {
    var a := ScriptStep(q / 4, r.a, r.b, r.c, r.d, x[K(4 * q)], Shift(4 * q), t0);
    var d := ScriptStep(q / 4, r.d, a, r.b, r.c, x[K(4 * q + 1)], Shift(4 * q + 1), t1);
    var c := ScriptStep(q / 4, r.c, d, a, r.b, x[K(4 * q + 2)], Shift(4 * q + 2), t2);
    var b := ScriptStep(q / 4, r.b, c, d, a, x[K(4 * q + 3)], Shift(4 * q + 3), t3);
    Regs(a, b, c, d)
  }

  lemma RoundOf(q: nat)
    ensures (4 * q) / 16 == (4 * q + 1) / 16 == (4 * q + 2) / 16 == (4 * q + 3) / 16 == q / 4
  {
  }

  /** They are the next four operations, if the constants are those of the table. */
  lemma ScriptQuadIsFour(q: nat, r0: Regs, x: seq<Word>, t0: int, t1: int, t2: int, t3: int)
    requires |x| == 16 && q < 16
    requires Stands(t0, 4 * q) && Stands(t1, 4 * q + 1) && Stands(t2, 4 * q + 2) && Stands(t3, 4 * q + 3)
    ensures ScriptQuad(q, Operations(4 * q, r0, x), x, t0, t1, t2, t3) == Operations(4 * q + 4, r0, x)
  {
    hide ScriptStep, Operation, Operations, K, Shift, T;
    var r := Operations(4 * q, r0, x);
    QuadIsFour(q, r0, x);
    RoundOf(q);
    var a := Operation(4 * q, r.a, r.b, r.c, r.d, x);
    StepIsOperation(4 * q, r.a, r.b, r.c, r.d, x, t0);
    var d := Operation(4 * q + 1, r.d, a, r.b, r.c, x);
    StepIsOperation(4 * q + 1, r.d, a, r.b, r.c, x, t1);
    var c := Operation(4 * q + 2, r.c, d, a, r.b, x);
    StepIsOperation(4 * q + 2, r.c, d, a, r.b, x, t2);
    StepIsOperation(4 * q + 3, r.b, c, d, a, x, t3);
  }

  lemma FfUnfolded(q: nat, r: Regs, x: seq<Word>, t0: int, t1: int, t2: int, t3: int)
    requires |x| == 16 && 0 <= q < 4 && IsNumber(t0) && IsNumber(t1) && IsNumber(t2) && IsNumber(t3)
    ensures var a := Ff(r.a, r.b, r.c, r.d, x[K(4 * q)], Shift(4 * q), t0);
      var d := Ff(r.d, a, r.b, r.c, x[K(4 * q + 1)], Shift(4 * q + 1), t1);
      var c := Ff(r.c, d, a, r.b, x[K(4 * q + 2)], Shift(4 * q + 2), t2);
      var b := Ff(r.b, c, d, a, x[K(4 * q + 3)], Shift(4 * q + 3), t3);
      ScriptQuad(q, r, x, t0, t1, t2, t3) == Regs(a, b, c, d)
  {
    hide Ff, K, Shift;
  }

  lemma FfQuad(q: nat, r0: Regs, r: Regs, x: seq<Word>, t0: int, t1: int, t2: int, t3: int)
    requires |x| == 16 && 0 <= q < 4 && r == Operations(4 * q, r0, x)
    requires Stands(t0, 4 * q) && Stands(t1, 4 * q + 1) && Stands(t2, 4 * q + 2) && Stands(t3, 4 * q + 3)
    ensures var a := Ff(r.a, r.b, r.c, r.d, x[K(4 * q)], Shift(4 * q), t0);
      var d := Ff(r.d, a, r.b, r.c, x[K(4 * q + 1)], Shift(4 * q + 1), t1);
      var c := Ff(r.c, d, a, r.b, x[K(4 * q + 2)], Shift(4 * q + 2), t2);
      var b := Ff(r.b, c, d, a, x[K(4 * q + 3)], Shift(4 * q + 3), t3);
      Operations(4 * q + 4, r0, x) == Regs(a, b, c, d)
  {
    FfUnfolded(q, r, x, t0, t1, t2, t3);
    hide *;
    ScriptQuadIsFour(q, r0, x, t0, t1, t2, t3);
  }

  lemma GgUnfolded(q: nat, r: Regs, x: seq<Word>, t0: int, t1: int, t2: int, t3: int)
    requires |x| == 16 && 4 <= q < 8 && IsNumber(t0) && IsNumber(t1) && IsNumber(t2) && IsNumber(t3)
    ensures var a := Gg(r.a, r.b, r.c, r.d, x[K(4 * q)], Shift(4 * q), t0);
      var d := Gg(r.d, a, r.b, r.c, x[K(4 * q + 1)], Shift(4 * q + 1), t1);
      var c := Gg(r.c, d, a, r.b, x[K(4 * q + 2)], Shift(4 * q + 2), t2);
      var b := Gg(r.b, c, d, a, x[K(4 * q + 3)], Shift(4 * q + 3), t3);
      ScriptQuad(q, r, x, t0, t1, t2, t3) == Regs(a, b, c, d)
  {
    hide Gg, K, Shift;
  }

  lemma GgQuad(q: nat, r0: Regs, r: Regs, x: seq<Word>, t0: int, t1: int, t2: int, t3: int)
    requires |x| == 16 && 4 <= q < 8 && r == Operations(4 * q, r0, x)
    requires Stands(t0, 4 * q) && Stands(t1, 4 * q + 1) && Stands(t2, 4 * q + 2) && Stands(t3, 4 * q + 3)
    ensures var a := Gg(r.a, r.b, r.c, r.d, x[K(4 * q)], Shift(4 * q), t0);
      var d := Gg(r.d, a, r.b, r.c, x[K(4 * q + 1)], Shift(4 * q + 1), t1);
      var c := Gg(r.c, d, a, r.b, x[K(4 * q + 2)], Shift(4 * q + 2), t2);
      var b := Gg(r.b, c, d, a, x[K(4 * q + 3)], Shift(4 * q + 3), t3);
      Operations(4 * q + 4, r0, x) == Regs(a, b, c, d)
  {
    GgUnfolded(q, r, x, t0, t1, t2, t3);
    hide *;
    ScriptQuadIsFour(q, r0, x, t0, t1, t2, t3);
  }

  lemma HhUnfolded(q: nat, r: Regs, x: seq<Word>, t0: int, t1: int, t2: int, t3: int)
    requires |x| == 16 && 8 <= q < 12 && IsNumber(t0) && IsNumber(t1) && IsNumber(t2) && IsNumber(t3)
    ensures var a := Hh(r.a, r.b, r.c, r.d, x[K(4 * q)], Shift(4 * q), t0);
      var d := Hh(r.d, a, r.b, r.c, x[K(4 * q + 1)], Shift(4 * q + 1), t1);
      var c := Hh(r.c, d, a, r.b, x[K(4 * q + 2)], Shift(4 * q + 2), t2);
      var b := Hh(r.b, c, d, a, x[K(4 * q + 3)], Shift(4 * q + 3), t3);
      ScriptQuad(q, r, x, t0, t1, t2, t3) == Regs(a, b, c, d)
  {
    hide Hh, K, Shift;
  }

  lemma HhQuad(q: nat, r0: Regs, r: Regs, x: seq<Word>, t0: int, t1: int, t2: int, t3: int)
    requires |x| == 16 && 8 <= q < 12 && r == Operations(4 * q, r0, x)
    requires Stands(t0, 4 * q) && Stands(t1, 4 * q + 1) && Stands(t2, 4 * q + 2) && Stands(t3, 4 * q + 3)
    ensures var a := Hh(r.a, r.b, r.c, r.d, x[K(4 * q)], Shift(4 * q), t0);
      var d := Hh(r.d, a, r.b, r.c, x[K(4 * q + 1)], Shift(4 * q + 1), t1);
      var c := Hh(r.c, d, a, r.b, x[K(4 * q + 2)], Shift(4 * q + 2), t2);
      var b := Hh(r.b, c, d, a, x[K(4 * q + 3)], Shift(4 * q + 3), t3);
      Operations(4 * q + 4, r0, x) == Regs(a, b, c, d)
  {
    HhUnfolded(q, r, x, t0, t1, t2, t3);
    hide *;
    ScriptQuadIsFour(q, r0, x, t0, t1, t2, t3);
  }

  lemma IiUnfolded(q: nat, r: Regs, x: seq<Word>, t0: int, t1: int, t2: int, t3: int)
    requires |x| == 16 && 12 <= q < 16 && IsNumber(t0) && IsNumber(t1) && IsNumber(t2) && IsNumber(t3)
    ensures var a := Ii(r.a, r.b, r.c, r.d, x[K(4 * q)], Shift(4 * q), t0);
      var d := Ii(r.d, a, r.b, r.c, x[K(4 * q + 1)], Shift(4 * q + 1), t1);
      var c := Ii(r.c, d, a, r.b, x[K(4 * q + 2)], Shift(4 * q + 2), t2);
      var b := Ii(r.b, c, d, a, x[K(4 * q + 3)], Shift(4 * q + 3), t3);
      ScriptQuad(q, r, x, t0, t1, t2, t3) == Regs(a, b, c, d)
  {
    hide Ii, K, Shift;
  }

  lemma IiQuad(q: nat, r0: Regs, r: Regs, x: seq<Word>, t0: int, t1: int, t2: int, t3: int)
    requires |x| == 16 && 12 <= q < 16 && r == Operations(4 * q, r0, x)
    requires Stands(t0, 4 * q) && Stands(t1, 4 * q + 1) && Stands(t2, 4 * q + 2) && Stands(t3, 4 * q + 3)
    ensures var a := Ii(r.a, r.b, r.c, r.d, x[K(4 * q)], Shift(4 * q), t0);
      var d := Ii(r.d, a, r.b, r.c, x[K(4 * q + 1)], Shift(4 * q + 1), t1);
      var c := Ii(r.c, d, a, r.b, x[K(4 * q + 2)], Shift(4 * q + 2), t2);
      var b := Ii(r.b, c, d, a, x[K(4 * q + 3)], Shift(4 * q + 3), t3);
      Operations(4 * q + 4, r0, x) == Regs(a, b, c, d)
  {
    IiUnfolded(q, r, x, t0, t1, t2, t3);
    hide *;
    ScriptQuadIsFour(q, r0, x, t0, t1, t2, t3);
  }

  // The words and shifts of the four rounds, operation by operation.

  lemma Order0()
    ensures K(0) == 0 && K(1) == 1 && K(2) == 2 && K(3) == 3
    ensures K(4) == 4 && K(5) == 5 && K(6) == 6 && K(7) == 7
    ensures K(8) == 8 && K(9) == 9 && K(10) == 10 && K(11) == 11
    ensures K(12) == 12 && K(13) == 13 && K(14) == 14 && K(15) == 15
    ensures Shift(0) == 7 && Shift(1) == 12 && Shift(2) == 17 && Shift(3) == 22
    ensures Shift(4) == 7 && Shift(5) == 12 && Shift(6) == 17 && Shift(7) == 22
    ensures Shift(8) == 7 && Shift(9) == 12 && Shift(10) == 17 && Shift(11) == 22
    ensures Shift(12) == 7 && Shift(13) == 12 && Shift(14) == 17 && Shift(15) == 22
  {
  }

  lemma Order1()
    ensures K(16) == 1 && K(17) == 6 && K(18) == 11 && K(19) == 0
    ensures K(20) == 5 && K(21) == 10 && K(22) == 15 && K(23) == 4
    ensures K(24) == 9 && K(25) == 14 && K(26) == 3 && K(27) == 8
    ensures K(28) == 13 && K(29) == 2 && K(30) == 7 && K(31) == 12
    ensures Shift(16) == 5 && Shift(17) == 9 && Shift(18) == 14 && Shift(19) == 20
    ensures Shift(20) == 5 && Shift(21) == 9 && Shift(22) == 14 && Shift(23) == 20
    ensures Shift(24) == 5 && Shift(25) == 9 && Shift(26) == 14 && Shift(27) == 20
    ensures Shift(28) == 5 && Shift(29) == 9 && Shift(30) == 14 && Shift(31) == 20
  {
  }

  lemma Order2()
    ensures K(32) == 5 && K(33) == 8 && K(34) == 11 && K(35) == 14
    ensures K(36) == 1 && K(37) == 4 && K(38) == 7 && K(39) == 10
    ensures K(40) == 13 && K(41) == 0 && K(42) == 3 && K(43) == 6
    ensures K(44) == 9 && K(45) == 12 && K(46) == 15 && K(47) == 2
    ensures Shift(32) == 4 && Shift(33) == 11 && Shift(34) == 16 && Shift(35) == 23
    ensures Shift(36) == 4 && Shift(37) == 11 && Shift(38) == 16 && Shift(39) == 23
    ensures Shift(40) == 4 && Shift(41) == 11 && Shift(42) == 16 && Shift(43) == 23
    ensures Shift(44) == 4 && Shift(45) == 11 && Shift(46) == 16 && Shift(47) == 23
  {
  }

  lemma Order3()
    ensures K(48) == 0 && K(49) == 7 && K(50) == 14 && K(51) == 5
    ensures K(52) == 12 && K(53) == 3 && K(54) == 10 && K(55) == 1
    ensures K(56) == 8 && K(57) == 15 && K(58) == 6 && K(59) == 13
    ensures K(60) == 4 && K(61) == 11 && K(62) == 2 && K(63) == 9
    ensures Shift(48) == 6 && Shift(49) == 10 && Shift(50) == 15 && Shift(51) == 21
    ensures Shift(52) == 6 && Shift(53) == 10 && Shift(54) == 15 && Shift(55) == 21
    ensures Shift(56) == 6 && Shift(57) == 10 && Shift(58) == 15 && Shift(59) == 21
    ensures Shift(60) == 6 && Shift(61) == 10 && Shift(62) == 15 && Shift(63) == 21
  {
  }

  // The constants of the script are those of the table.

  lemma Constants0()
    ensures Stands(-680876936, 0)
    ensures Stands(-389564586, 1)
    ensures Stands(606105819, 2)
    ensures Stands(-1044525330, 3)
    ensures Stands(-176418897, 4)
    ensures Stands(1200080426, 5)
    ensures Stands(-1473231341, 6)
    ensures Stands(-45705983, 7)
    ensures Stands(1770035416, 8)
    ensures Stands(-1958414417, 9)
    ensures Stands(-42063, 10)
    ensures Stands(-1990404162, 11)
    ensures Stands(1804603682, 12)
    ensures Stands(-40341101, 13)
    ensures Stands(-1502002290, 14)
    ensures Stands(1236535329, 15)
  {
  }

  lemma Constants1()
    ensures Stands(-165796510, 16)
    ensures Stands(-1069501632, 17)
    ensures Stands(643717713, 18)
    ensures Stands(-373897302, 19)
    ensures Stands(-701558691, 20)
    ensures Stands(38016083, 21)
    ensures Stands(-660478335, 22)
    ensures Stands(-405537848, 23)
    ensures Stands(568446438, 24)
    ensures Stands(-1019803690, 25)
    ensures Stands(-187363961, 26)
    ensures Stands(1163531501, 27)
    ensures Stands(-1444681467, 28)
    ensures Stands(-51403784, 29)
    ensures Stands(1735328473, 30)
    ensures Stands(-1926607734, 31)
  {
  }

  lemma Constants2()
    ensures Stands(-378558, 32)
    ensures Stands(-2022574463, 33)
    ensures Stands(1839030562, 34)
    ensures Stands(-35309556, 35)
    ensures Stands(-1530992060, 36)
    ensures Stands(1272893353, 37)
    ensures Stands(-155497632, 38)
    ensures Stands(-1094730640, 39)
    ensures Stands(681279174, 40)
    ensures Stands(-358537222, 41)
    ensures Stands(-722521979, 42)
    ensures Stands(76029189, 43)
    ensures Stands(-640364487, 44)
    ensures Stands(-421815835, 45)
    ensures Stands(530742520, 46)
    ensures Stands(-995338651, 47)
  {
  }

  lemma Constants3()
    ensures Stands(-198630844, 48)
    ensures Stands(1126891415, 49)
    ensures Stands(-1416354905, 50)
    ensures Stands(-57434055, 51)
    ensures Stands(1700485571, 52)
    ensures Stands(-1894986606, 53)
    ensures Stands(-1051523, 54)
    ensures Stands(-2054922799, 55)
    ensures Stands(1873313359, 56)
    ensures Stands(-30611744, 57)
    ensures Stands(-1560198380, 58)
    ensures Stands(1309151649, 59)
    ensures Stands(-145523070, 60)
    ensures Stands(-1120210379, 61)
    ensures Stands(718787259, 62)
    ensures Stands(-343485551, 63)
  {
  }
}
