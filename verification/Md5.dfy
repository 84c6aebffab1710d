/** The MD5 digest as the script computes it: blocks are taken from the message one after the other, and the padded
    message is never built. */
module Md5 {
  import opened Bits
  import opened Md5Padding
  import opened Md5Rounds

  function RegsOf(s: seq<Word>): Regs
    requires |s| == 4
  {
    Regs(s[0], s[1], s[2], s[3])
  }

  /** The sixteen steps of round 1. */
  method Round1(a0: Word, b0: Word, c0: Word, d0: Word, x: array<Word>, ghost r0: Regs)
    returns (a: Word, b: Word, c: Word, d: Word)
    requires x.Length == 16 && Regs(a0, b0, c0, d0) == Operations(0, r0, x[..])
    ensures Regs(a, b, c, d) == Operations(16, r0, x[..])
  {
    a, b, c, d := a0, b0, c0, d0;
    Constants0();
    Order0();
    hide Stands, Operations, Ff, K, Shift;
    a := Ff(a, b, c, d, x[0], 7, -680876936);
    d := Ff(d, a, b, c, x[1], 12, -389564586);
    c := Ff(c, d, a, b, x[2], 17, 606105819);
    b := Ff(b, c, d, a, x[3], 22, -1044525330);
    FfQuad(0, r0, Operations(0, r0, x[..]), x[..], -680876936, -389564586, 606105819, -1044525330);
    assert Regs(a, b, c, d) == Operations(4, r0, x[..]);
    a := Ff(a, b, c, d, x[4], 7, -176418897);
    d := Ff(d, a, b, c, x[5], 12, 1200080426);
    c := Ff(c, d, a, b, x[6], 17, -1473231341);
    b := Ff(b, c, d, a, x[7], 22, -45705983);
    FfQuad(1, r0, Operations(4, r0, x[..]), x[..], -176418897, 1200080426, -1473231341, -45705983);
    assert Regs(a, b, c, d) == Operations(8, r0, x[..]);
    a := Ff(a, b, c, d, x[8], 7, 1770035416);
    d := Ff(d, a, b, c, x[9], 12, -1958414417);
    c := Ff(c, d, a, b, x[10], 17, -42063);
    b := Ff(b, c, d, a, x[11], 22, -1990404162);
    FfQuad(2, r0, Operations(8, r0, x[..]), x[..], 1770035416, -1958414417, -42063, -1990404162);
    assert Regs(a, b, c, d) == Operations(12, r0, x[..]);
    a := Ff(a, b, c, d, x[12], 7, 1804603682);
    d := Ff(d, a, b, c, x[13], 12, -40341101);
    c := Ff(c, d, a, b, x[14], 17, -1502002290);
    b := Ff(b, c, d, a, x[15], 22, 1236535329);
    FfQuad(3, r0, Operations(12, r0, x[..]), x[..], 1804603682, -40341101, -1502002290, 1236535329);
    assert Regs(a, b, c, d) == Operations(16, r0, x[..]);
  }

  /** The sixteen steps of round 2. */
  method Round2(a0: Word, b0: Word, c0: Word, d0: Word, x: array<Word>, ghost r0: Regs)
    returns (a: Word, b: Word, c: Word, d: Word)
    requires x.Length == 16 && Regs(a0, b0, c0, d0) == Operations(16, r0, x[..])
    ensures Regs(a, b, c, d) == Operations(32, r0, x[..])
  {
    a, b, c, d := a0, b0, c0, d0;
    Constants1();
    Order1();
    hide Stands, Operations, Gg, K, Shift;
    a := Gg(a, b, c, d, x[1], 5, -165796510);
    d := Gg(d, a, b, c, x[6], 9, -1069501632);
    c := Gg(c, d, a, b, x[11], 14, 643717713);
    b := Gg(b, c, d, a, x[0], 20, -373897302);
    GgQuad(4, r0, Operations(16, r0, x[..]), x[..], -165796510, -1069501632, 643717713, -373897302);
    assert Regs(a, b, c, d) == Operations(20, r0, x[..]);
    a := Gg(a, b, c, d, x[5], 5, -701558691);
    d := Gg(d, a, b, c, x[10], 9, 38016083);
    c := Gg(c, d, a, b, x[15], 14, -660478335);
    b := Gg(b, c, d, a, x[4], 20, -405537848);
    GgQuad(5, r0, Operations(20, r0, x[..]), x[..], -701558691, 38016083, -660478335, -405537848);
    assert Regs(a, b, c, d) == Operations(24, r0, x[..]);
    a := Gg(a, b, c, d, x[9], 5, 568446438);
    d := Gg(d, a, b, c, x[14], 9, -1019803690);
    c := Gg(c, d, a, b, x[3], 14, -187363961);
    b := Gg(b, c, d, a, x[8], 20, 1163531501);
    GgQuad(6, r0, Operations(24, r0, x[..]), x[..], 568446438, -1019803690, -187363961, 1163531501);
    assert Regs(a, b, c, d) == Operations(28, r0, x[..]);
    a := Gg(a, b, c, d, x[13], 5, -1444681467);
    d := Gg(d, a, b, c, x[2], 9, -51403784);
    c := Gg(c, d, a, b, x[7], 14, 1735328473);
    b := Gg(b, c, d, a, x[12], 20, -1926607734);
    GgQuad(7, r0, Operations(28, r0, x[..]), x[..], -1444681467, -51403784, 1735328473, -1926607734);
    assert Regs(a, b, c, d) == Operations(32, r0, x[..]);
  }

  /** The sixteen steps of round 3. */
  method Round3(a0: Word, b0: Word, c0: Word, d0: Word, x: array<Word>, ghost r0: Regs)
    returns (a: Word, b: Word, c: Word, d: Word)
    requires x.Length == 16 && Regs(a0, b0, c0, d0) == Operations(32, r0, x[..])
    ensures Regs(a, b, c, d) == Operations(48, r0, x[..])
  {
    a, b, c, d := a0, b0, c0, d0;
    Constants2();
    Order2();
    hide Stands, Operations, Hh, K, Shift;
    a := Hh(a, b, c, d, x[5], 4, -378558);
    d := Hh(d, a, b, c, x[8], 11, -2022574463);
    c := Hh(c, d, a, b, x[11], 16, 1839030562);
    b := Hh(b, c, d, a, x[14], 23, -35309556);
    HhQuad(8, r0, Operations(32, r0, x[..]), x[..], -378558, -2022574463, 1839030562, -35309556);
    assert Regs(a, b, c, d) == Operations(36, r0, x[..]);
    a := Hh(a, b, c, d, x[1], 4, -1530992060);
    d := Hh(d, a, b, c, x[4], 11, 1272893353);
    c := Hh(c, d, a, b, x[7], 16, -155497632);
    b := Hh(b, c, d, a, x[10], 23, -1094730640);
    HhQuad(9, r0, Operations(36, r0, x[..]), x[..], -1530992060, 1272893353, -155497632, -1094730640);
    assert Regs(a, b, c, d) == Operations(40, r0, x[..]);
    a := Hh(a, b, c, d, x[13], 4, 681279174);
    d := Hh(d, a, b, c, x[0], 11, -358537222);
    c := Hh(c, d, a, b, x[3], 16, -722521979);
    b := Hh(b, c, d, a, x[6], 23, 76029189);
    HhQuad(10, r0, Operations(40, r0, x[..]), x[..], 681279174, -358537222, -722521979, 76029189);
    assert Regs(a, b, c, d) == Operations(44, r0, x[..]);
    a := Hh(a, b, c, d, x[9], 4, -640364487);
    d := Hh(d, a, b, c, x[12], 11, -421815835);
    c := Hh(c, d, a, b, x[15], 16, 530742520);
    b := Hh(b, c, d, a, x[2], 23, -995338651);
    HhQuad(11, r0, Operations(44, r0, x[..]), x[..], -640364487, -421815835, 530742520, -995338651);
    assert Regs(a, b, c, d) == Operations(48, r0, x[..]);
  }

  /** The sixteen steps of round 4. */
  method Round4(a0: Word, b0: Word, c0: Word, d0: Word, x: array<Word>, ghost r0: Regs)
    returns (a: Word, b: Word, c: Word, d: Word)
    requires x.Length == 16 && Regs(a0, b0, c0, d0) == Operations(48, r0, x[..])
    ensures Regs(a, b, c, d) == Operations(64, r0, x[..])
  {
    a, b, c, d := a0, b0, c0, d0;
    Constants3();
    Order3();
    hide Stands, Operations, Ii, K, Shift;
    a := Ii(a, b, c, d, x[0], 6, -198630844);
    d := Ii(d, a, b, c, x[7], 10, 1126891415);
    c := Ii(c, d, a, b, x[14], 15, -1416354905);
    b := Ii(b, c, d, a, x[5], 21, -57434055);
    IiQuad(12, r0, Operations(48, r0, x[..]), x[..], -198630844, 1126891415, -1416354905, -57434055);
    assert Regs(a, b, c, d) == Operations(52, r0, x[..]);
    a := Ii(a, b, c, d, x[12], 6, 1700485571);
    d := Ii(d, a, b, c, x[3], 10, -1894986606);
    c := Ii(c, d, a, b, x[10], 15, -1051523);
    b := Ii(b, c, d, a, x[1], 21, -2054922799);
    IiQuad(13, r0, Operations(52, r0, x[..]), x[..], 1700485571, -1894986606, -1051523, -2054922799);
    assert Regs(a, b, c, d) == Operations(56, r0, x[..]);
    a := Ii(a, b, c, d, x[8], 6, 1873313359);
    d := Ii(d, a, b, c, x[15], 10, -30611744);
    c := Ii(c, d, a, b, x[6], 15, -1560198380);
    b := Ii(b, c, d, a, x[13], 21, 1309151649);
    IiQuad(14, r0, Operations(56, r0, x[..]), x[..], 1873313359, -30611744, -1560198380, 1309151649);
    assert Regs(a, b, c, d) == Operations(60, r0, x[..]);
    a := Ii(a, b, c, d, x[4], 6, -145523070);
    d := Ii(d, a, b, c, x[11], 10, -1120210379);
    c := Ii(c, d, a, b, x[2], 15, 718787259);
    b := Ii(b, c, d, a, x[9], 21, -343485551);
    IiQuad(15, r0, Operations(60, r0, x[..]), x[..], -145523070, -1120210379, 718787259, -343485551);
    assert Regs(a, b, c, d) == Operations(64, r0, x[..]);
  }

  lemma RegsAre(s: seq<Word>)
    requires |s| == 4
    ensures RegsOf(s) == Regs(s[0], s[1], s[2], s[3])
  {
  }

  lemma ProcessAdds(r0: Regs, x: seq<Word>, a: Word, b: Word, c: Word, d: Word)
    requires |x| == 16 && Regs(a, b, c, d) == Operations(64, r0, x)
    ensures Process(r0, x) == Regs(Add(a, r0.a), Add(b, r0.b), Add(c, r0.c), Add(d, r0.d))
  {
    AddLaws(a, r0.a, a);
    AddLaws(b, r0.b, b);
    AddLaws(c, r0.c, c);
    AddLaws(d, r0.d, d);
    hide Add, Operations;
  }

  /** The 64 steps, unrolled, on the registers in place. */
  method Md5Cycle(e: array<Word>, x: array<Word>)
    requires e.Length == 4 && x.Length == 16 && e != x
    modifies e
    ensures RegsOf(e[..]) == Process(RegsOf(old(e[..])), x[..])
  {
    ghost var r0, xs := RegsOf(e[..]), x[..];
    RegsAre(e[..]);
    hide Operations, Add;
    var a, b, c, d := Round1(e[0], e[1], e[2], e[3], x, r0);
    a, b, c, d := Round2(a, b, c, d, x, r0);
    a, b, c, d := Round3(a, b, c, d, x, r0);
    a, b, c, d := Round4(a, b, c, d, x, r0);
    ProcessAdds(r0, xs, a, b, c, d);
    hide *;
    e[0] := Add(a, e[0]);
    e[1] := Add(b, e[1]);
    e[2] := Add(c, e[2]);
    e[3] := Add(d, e[3]);
    RegsAre(e[..]);
  }

  // ---------------------------------------------------------------- blocks

  const Zero := Word(0)

  function OrBits(x: bv32, y: bv32): bv32 { x | y }

  function Or(x: Word, y: Word): Word { Word(OrBits(x.bits, y.bits)) }

  /** A character code, k bytes up. */
  function ShiftedBits(c: bv8, k: nat): bv32
    requires k < 4
  {
    if k == 0 then c as bv32
    else if k == 1 then (c as bv32) << 8
    else if k == 2 then (c as bv32) << 16
    else (c as bv32) << 24
  }

  function Shifted(c: Octet, k: nat): Word
    requires k < 4
  {
    Word(ShiftedBits(c.bits, k))
  }

  lemma SumOfTwo(b0: bv8, b1: bv8)
    ensures Plus(ShiftedBits(b0, 0), ShiftedBits(b1, 1)) == ((b0 as bv32) | ((b1 as bv32) << 8))
  {
  }

  lemma SumOfThree(b0: bv8, b1: bv8, b2: bv8)
    ensures Plus((b0 as bv32) | ((b1 as bv32) << 8), ShiftedBits(b2, 2))
            == ((b0 as bv32) | ((b1 as bv32) << 8) | ((b2 as bv32) << 16))
  {
  }

  lemma SumOfFour(b0: bv8, b1: bv8, b2: bv8, b3: bv8)
    ensures Plus((b0 as bv32) | ((b1 as bv32) << 8) | ((b2 as bv32) << 16), ShiftedBits(b3, 3))
            == LittleEndian(b0, b1, b2, b3)
  {
  }

  lemma SumIsWord(b0: Octet, b1: Octet, b2: Octet, b3: Octet)
    ensures Add(Add(Add(Shifted(b0, 0), Shifted(b1, 1)), Shifted(b2, 2)), Shifted(b3, 3)) == FromBytes(b0, b1, b2, b3)
  {
    SumOfTwo(b0.bits, b1.bits);
    SumOfThree(b0.bits, b1.bits, b2.bits);
    SumOfFour(b0.bits, b1.bits, b2.bits, b3.bits);
    hide Plus, ShiftedBits, LittleEndian;
  }

  /** The words of a block, by addition of its shifted bytes. */
  method Md5Block(e: seq<Octet>) returns (t: array<Word>)
    requires |e| == 64
    ensures fresh(t) && t[..] == Words(e)
  {
    t := new Word[16](_ => Zero);
    var n := 0;
    while n < 64
      invariant 0 <= n <= 64 && n % 4 == 0
      invariant forall w :: 0 <= w < n / 4 ==> t[w] == Words(e)[w]
    {
      SumIsWord(e[n], e[n + 1], e[n + 2], e[n + 3]);
      t[n / 4] := Add(Add(Add(Shifted(e[n], 0), Shifted(e[n + 1], 1)), Shifted(e[n + 2], 2)), Shifted(e[n + 3], 3));
      n := n + 4;
    }
  }

  lemma OrOfByte0(b1: bv8, b2: bv8, b3: bv8, c: bv8)
    ensures OrBits(LittleEndian(0, b1, b2, b3), ShiftedBits(c, 0)) == LittleEndian(c, b1, b2, b3)
  {
  }

  lemma OrOfByte1(b0: bv8, b2: bv8, b3: bv8, c: bv8)
    ensures OrBits(LittleEndian(b0, 0, b2, b3), ShiftedBits(c, 1)) == LittleEndian(b0, c, b2, b3)
  {
  }

  lemma OrOfByte2(b0: bv8, b1: bv8, b3: bv8, c: bv8)
    ensures OrBits(LittleEndian(b0, b1, 0, b3), ShiftedBits(c, 2)) == LittleEndian(b0, b1, c, b3)
  {
  }

  lemma OrOfByte3(b0: bv8, b1: bv8, b2: bv8, c: bv8)
    ensures OrBits(LittleEndian(b0, b1, b2, 0), ShiftedBits(c, 3)) == LittleEndian(b0, b1, b2, c)
  {
  }

  lemma OrPutsByte(b: seq<Octet>, k: nat, c: Octet)
    requires |b| == 4 && k < 4 && b[k] == NUL
    ensures var d := b[k := c];
      Or(FromBytes(b[0], b[1], b[2], b[3]), Shifted(c, k)) == FromBytes(d[0], d[1], d[2], d[3])
  {
    hide LittleEndian, ShiftedBits, OrBits;
    if k == 0 {
      OrOfByte0(b[1].bits, b[2].bits, b[3].bits, c.bits);
    } else if k == 1 {
      OrOfByte1(b[0].bits, b[2].bits, b[3].bits, c.bits);
    } else if k == 2 {
      OrOfByte2(b[0].bits, b[1].bits, b[3].bits, c.bits);
    } else {
      OrOfByte3(b[0].bits, b[1].bits, b[2].bits, c.bits);
    }
  }

  /** One more byte changes one word. */
  lemma WordsWithByte(b: seq<Octet>, r: nat, c: Octet)
    requires |b| == 64 && r < 64
    ensures var four := b[4 * (r / 4)..4 * (r / 4) + 4][r % 4 := c];
      && Words(b)[r / 4] == FromBytes(b[4 * (r / 4)], b[4 * (r / 4) + 1], b[4 * (r / 4) + 2], b[4 * (r / 4) + 3])
      && Words(b[r := c]) == Words(b)[r / 4 := FromBytes(four[0], four[1], four[2], four[3])]
  {
    hide FromBytes;
    var q := r / 4;
    assert b[r := c][4 * q..4 * q + 4] == b[4 * q..4 * q + 4][r % 4 := c];
    forall w | 0 <= w < 16 && w != q
      ensures b[r := c][4 * w..4 * w + 4] == b[4 * w..4 * w + 4]
    {
    }
  }

  /** Byte r of a block of words is filled in. */
  method PutByte(i: array<Word>, ghost b: seq<Octet>, r: nat, c: Octet)
    requires i.Length == 16 && |b| == 64 && i[..] == Words(b) && r < 64 && b[r] == NUL
    modifies i
    ensures i[..] == Words(b[r := c])
  {
    ghost var four := b[4 * (r / 4)..4 * (r / 4) + 4];
    OrPutsByte(four, r % 4, c);
    WordsWithByte(b, r, c);
    hide Or, Shifted, FromBytes, Words;
    i[r / 4] := Or(i[r / 4], Shifted(c, r % 4));
  }

  // ---------------------------------------------------------------- the digest

  /** The words of the last block: its bytes, and the length of the message in their place. */
  lemma LengthWord(b: seq<Octet>, head: seq<Octet>, len: Word)
    requires |b| == 64 && |head| == 56 && b == head + Zeros(8)
    ensures |head + Bytes(len) + Bytes(Zero)| == 64
    ensures Words(b)[14 := len] == Words(head + Bytes(len) + Bytes(Zero))
  {
    var d := head + Bytes(len) + Bytes(Zero);
    BytesBack(len);
    assert Bytes(Zero) == Zeros(4) by {
      hide LittleEndian;
    }
    hide Bytes, FromBytes;
    forall w | 0 <= w < 16
      ensures Words(b)[14 := len][w] == Words(d)[w]
    {
      if w < 14 {
        assert b[4 * w..4 * w + 4] == head[4 * w..4 * w + 4] == d[4 * w..4 * w + 4];
      }
    }
  }

  lemma InitialState()
    ensures Regs(NumberWord(1732584193), NumberWord(-271733879), NumberWord(-1732584194), NumberWord(271733878)) == Initial
  {
    assert -271733879 % TWO_32 == 0xefcdab89 && -1732584194 % TWO_32 == 0x98badcfe;
  }

  /** The message padded as in RFC 1321, but with zero as the high-order word of the length. */
  function ShortPadded(msg: seq<Octet>): seq<Octet> {
    PaddedWith(msg, Zero)
  }

  /** The digest of that. */
  function Streamed(msg: seq<Octet>): Regs {
    PaddedLength(msg, Zero);
    Digested(ShortPadded(msg), |ShortPadded(msg)| / 64)
  }

  /** The registers after j whole blocks of the message. */
  function AfterBlocks(msg: seq<Octet>, j: nat): Regs
    requires 64 * j <= |msg|
  {
    Digested(ShortPadded(msg), j)
  }

  lemma NextBlock(msg: seq<Octet>, j: nat)
    requires 64 * j + 64 <= |msg|
    ensures AfterBlocks(msg, j + 1) == Process(AfterBlocks(msg, j), Words(msg[64 * j..64 * j + 64]))
  {
    WholeBlock(msg, Zero, j);
    hide Process, Words, PaddedWith;
  }

  /** The last block, when the length still fits into it. */
  lemma TailInOne(msg: seq<Octet>, j: nat, e: seq<Octet>)
    requires 64 * j <= |msg| && e == msg[64 * j..] && |e| <= 55
    ensures Streamed(msg)
            == Process(AfterBlocks(msg, j), Words(e + [ONE_BIT] + Zeros(63 - |e|))[14 := NumberWord(8 * |msg|)])
  {
    hide Process, Words, PaddedWith, NumberWord, Bytes, Block;
    var head, len := e + [ONE_BIT] + Zeros(55 - |e|), NumberWord(8 * |msg|);
    TailBlocks(msg, Zero, j, e);
    assert e + [ONE_BIT] + Zeros(63 - |e|) == head + Zeros(8);
    LengthWord(head + Zeros(8), head, len);
  }

  /** The last two blocks, when it does not. */
  lemma TailInTwo(msg: seq<Octet>, j: nat, e: seq<Octet>)
    requires 64 * j <= |msg| && e == msg[64 * j..] && 55 < |e| < 64
    ensures var full := Process(AfterBlocks(msg, j), Words(e + [ONE_BIT] + Zeros(63 - |e|)));
      Streamed(msg) == Process(full, Words(Zeros(64))[14 := NumberWord(8 * |msg|)])
  {
    hide Process, Words, PaddedWith, NumberWord, Bytes, Block;
    var len := NumberWord(8 * |msg|);
    TailBlocks(msg, Zero, j, e);
    assert Zeros(64) == Zeros(56) + Zeros(8);
    LengthWord(Zeros(64), Zeros(56), len);
    var p := ShortPadded(msg);
    assert Digested(p, j + 2) == Process(Digested(p, j + 1), Words(Block(p, j + 1)));
    assert Digested(p, j + 1) == Process(Digested(p, j), Words(Block(p, j)));
  }

  /** A block of words that holds the bytes, a one bit, and zeros. */
  method FillTail(e: seq<Octet>) returns (i: array<Word>)
    requires |e| < 64
    ensures fresh(i) && i.Length == 16 && i[..] == Words(e + [ONE_BIT] + Zeros(63 - |e|))
  {
    i := new Word[16](_ => Zero);
    ghost var b := Zeros(64);
    ZeroWords();
    assert i[..] == Words(b);
    hide Words, Zeros;
    var r := 0;
    while r < |e|
      invariant 0 <= r <= |e| && |b| == 64 && i[..] == Words(b)
      invariant forall k :: 0 <= k < 64 ==> b[k] == if k < r then e[k] else NUL
    {
      PutByte(i, b, r, e[r]);
      b := b[r := e[r]];
      r := r + 1;
    }
    PutByte(i, b, r, ONE_BIT);
    b := b[r := ONE_BIT];
    assert b == e + [ONE_BIT] + Zeros(63 - |e|);
  }

  lemma ZeroWords()
    ensures forall w :: 0 <= w < 16 ==> Words(Zeros(64))[w] == Zero
  {
    assert LittleEndian(0, 0, 0, 0) == 0;
    hide LittleEndian;
  }

  method Clear(i: array<Word>)
    requires i.Length == 16
    modifies i
    ensures i[..] == Words(Zeros(64))
  {
    var r := 0;
    while r < 16
      invariant 0 <= r <= 16 && forall k :: 0 <= k < r ==> i[k] == Zero
    {
      i[r] := Zero;
      r := r + 1;
    }
    ZeroWords();
  }

  /** What is done with the rest of the message, which is shorter than a block. */
  method Md5Tail(n: array<Word>, msg: seq<Octet>, ghost j: nat, e: seq<Octet>)
    requires n.Length == 4 && 64 * j <= |msg| && e == msg[64 * j..] && |e| < 64
    requires RegsOf(n[..]) == AfterBlocks(msg, j)
    modifies n
    ensures RegsOf(n[..]) == Streamed(msg)
  {
    hide *;
    if |e| > 55 {
      TailInTwo(msg, j, e);
    } else {
      TailInOne(msg, j, e);
    }
    var i := FillTail(e);
    if |e| > 55 {
      Md5Cycle(n, i);
      Clear(i);
    }
    ghost var was := i[..];
    i[14] := NumberWord(8 * |msg|);
    assert i[..] == was[14 := NumberWord(8 * |msg|)];
    Md5Cycle(n, i);
  }

  lemma StartState(msg: seq<Octet>)
    ensures AfterBlocks(msg, 0)
            == Regs(NumberWord(1732584193), NumberWord(-271733879), NumberWord(-1732584194), NumberWord(271733878))
  {
    InitialState();
    hide NumberWord;
  }

  /** The digest, block by block. */
  method Md51(e: seq<Octet>) returns (n: array<Word>)
    ensures fresh(n) && n.Length == 4 && RegsOf(n[..]) == Streamed(e)
  {
    hide *;
    StartState(e);
    n := new Word[] [NumberWord(1732584193), NumberWord(-271733879), NumberWord(-1732584194), NumberWord(271733878)];
    RegsAre(n[..]);
    ghost var j := 0;
    var r := 64;
    while r <= |e|
      invariant r == 64 * j + 64 && 64 * j <= |e| && fresh(n) && n.Length == 4
      invariant RegsOf(n[..]) == AfterBlocks(e, j)
    {
      var block := Md5Block(e[r - 64..r]);
      NextBlock(e, j);
      Md5Cycle(n, block);
      r, j := r + 64, j + 1;
    }
    Md5Tail(n, e, j, e[r - 64..]);
  }

  lemma ZeroResidue(k: int)
    requires 0 <= k < TWO_32
    ensures NumberWord(k) == Zero <==> k == 0
  {
    ValOfWord(k);
    ValOfOnes();
    hide WordOf, Val;
    if k == 0 {
      ValInjective(WordOf(k), 0);
    }
  }

  /** Messages are padded as in RFC 1321 exactly when they are shorter than 2^29 bytes; the standard has the length
      modulo 2^64, so the statement is about lengths below that. Then the digest is that of the standard. */
  lemma PaddedExactly(msg: seq<Octet>)
    requires 8 * |msg| < TWO_32 * TWO_32
    ensures ShortPadded(msg) == Padded(msg) <==> |msg| < 0x2000_0000
    ensures |msg| < 0x2000_0000 ==> Streamed(msg) == Digest(msg)
  {
    ZeroResidue(8 * |msg| / TWO_32);
    BytesBack(Zero);
    BytesBack(HighOrder(msg));
    hide NumberWord, Bytes, FromBytes, Digested;
    var p, q := ShortPadded(msg), Padded(msg);
    assert p[|p| - 4..] == Bytes(Zero) && q[|q| - 4..] == Bytes(HighOrder(msg));
  }

  // ---------------------------------------------------------------- the output

  /** Four bits of a word. */
  function Nibble(w: bv32, k: nat): bv8
    requires k < 8
  {
    if k == 0 then (w & 15) as bv8
    else if k == 1 then ((w >> 4) & 15) as bv8
    else if k == 2 then ((w >> 8) & 15) as bv8
    else if k == 3 then ((w >> 12) & 15) as bv8
    else if k == 4 then ((w >> 16) & 15) as bv8
    else if k == 5 then ((w >> 20) & 15) as bv8
    else if k == 6 then ((w >> 24) & 15) as bv8
    else ((w >> 28) & 15) as bv8
  }

  function HexDigit(d: bv8): char {
    if d == 0 then '0' else if d == 1 then '1' else if d == 2 then '2' else if d == 3 then '3'
    else if d == 4 then '4' else if d == 5 then '5' else if d == 6 then '6' else if d == 7 then '7'
    else if d == 8 then '8' else if d == 9 then '9' else if d == 10 then 'a' else if d == 11 then 'b'
    else if d == 12 then 'c' else if d == 13 then 'd' else if d == 14 then 'e' else 'f'
  }

  function High(b: bv8): bv8 { b >> 4 }

  function Low(b: bv8): bv8 { b & 15 }

  /** A byte as two hexadecimal digits. */
  function HexByte(b: Octet): string {
    [HexDigit(High(b.bits)), HexDigit(Low(b.bits))]
  }

  function Hex(s: seq<Octet>): string {
    if s == [] then "" else Hex(s[..|s| - 1]) + HexByte(s[|s| - 1])
  }

  /** The number that a hexadecimal digit stands for, from its character code. */
  function ReadDigit(c: char): bv8 {
    if '0' <= c <= '9' then (c as int - '0' as int) as bv8
    else if 'a' <= c <= 'f' then (c as int - 'a' as int + 10) as bv8
    else 0
  }

  function ReadByte(high: char, low: char): Octet {
    Octet((ReadDigit(high) << 4) | ReadDigit(low))
  }

  /** Two digits for every byte. */
  function ReadHex(s: string): seq<Octet> {
    if |s| < 2 then [] else ReadHex(s[..|s| - 2]) + [ReadByte(s[|s| - 2], s[|s| - 1])]
  }

  /** The digits are those of the character codes, 0 to 9 from '0' on and 10 to 15 from 'a' on. */
  lemma HexDigitCodes(d: bv8)
    requires d < 16
    ensures HexDigit(d) as int == if d < 10 then '0' as int + d as int else 'a' as int + (d as int - 10)
    ensures ReadDigit(HexDigit(d)) == d
  {
    if d == 0 {
    } else if d == 1 {
    } else if d == 2 {
    } else if d == 3 {
    } else if d == 4 {
    } else if d == 5 {
    } else if d == 6 {
    } else if d == 7 {
    } else if d == 8 {
    } else if d == 9 {
    } else if d == 10 {
    } else if d == 11 {
    } else if d == 12 {
    } else if d == 13 {
    } else if d == 14 {
    } else {
      assert d == 15;
    }
  }

  lemma HalvesOfByte(b: bv8)
    ensures High(b) < 16 && Low(b) < 16 && (High(b) << 4) | Low(b) == b
  {
  }

  lemma ByteReadsBack(b: Octet)
    ensures ReadByte(HexByte(b)[0], HexByte(b)[1]) == b
  {
    HalvesOfByte(b.bits);
    HexDigitCodes(High(b.bits));
    HexDigitCodes(Low(b.bits));
    hide HexDigit, ReadDigit, High, Low;
  }

  lemma LastByteRead(s: string, pair: string)
    requires |pair| == 2
    ensures ReadHex(s + pair) == ReadHex(s) + [ReadByte(pair[0], pair[1])]
  {
    assert (s + pair)[..|s|] == s;
    hide ReadByte;
  }

  /** What was written in hexadecimal reads back as the bytes. */
  lemma {:induction false} HexReadsBack(s: seq<Octet>)
    ensures |Hex(s)| == 2 * |s| && ReadHex(Hex(s)) == s
  {
    if s != [] {
      var front, b := s[..|s| - 1], s[|s| - 1];
      HexReadsBack(front);
      ByteReadsBack(b);
      LastByteRead(Hex(front), HexByte(b));
      hide ReadByte, ReadHex, HexDigit;
      assert front + [b] == s;
    }
  }

  lemma NibblesOfByte(w: bv32, n: nat)
    requires n < 4
    ensures Nibble(w, 2 * n + 1) == High(ByteOf(w, n)) && Nibble(w, 2 * n) == Low(ByteOf(w, n))
  {
    if n == 0 {
    } else if n == 1 {
    } else if n == 2 {
    } else {
    }
  }

  function Digit(w: Word, k: nat): char
    requires k < 8
  {
    HexDigit(Nibble(w.bits, k))
  }

  lemma DigitsOfByte(w: Word, n: nat)
    requires n < 4
    ensures HexByte(Bytes(w)[n]) == [Digit(w, 2 * n + 1), Digit(w, 2 * n)]
  {
    NibblesOfByte(w.bits, n);
    hide ByteOf, Nibble, HexDigit, High, Low;
    assert Bytes(w)[n] == Octet(ByteOf(w.bits, n));
  }

  /** A word as eight hexadecimal digits, low-order byte first. */
  method Rhex(e: Word) returns (t: string)
    ensures t == Hex(Bytes(e)) && |t| == 8 && ReadHex(t) == Bytes(e)
  {
    HexReadsBack(Bytes(e));
    hide Digit, HexByte, Bytes, ReadHex;
    t := "";
    var n := 0;
    while n < 4
      invariant 0 <= n <= 4 && t == Hex(Bytes(e)[..n])
    {
      DigitsOfByte(e, n);
      assert Bytes(e)[..n + 1][..n] == Bytes(e)[..n];
      t := t + [Digit(e, 2 * n + 1)] + [Digit(e, 2 * n)];
      n := n + 1;
    }
    assert Bytes(e)[..4] == Bytes(e);
  }

  /** The sixteen bytes of a digest, as section 3.5 of RFC 1321 puts them out. */
  function DigestBytes(r: Regs): seq<Octet> {
    Bytes(r.a) + Bytes(r.b) + Bytes(r.c) + Bytes(r.d)
  }

  lemma {:induction false} HexConcat(s: seq<Octet>, t: seq<Octet>)
    ensures Hex(s + t) == Hex(s) + Hex(t)
  {
    if t == [] {
      assert s + t == s;
    } else {
      HexConcat(s, t[..|t| - 1]);
      assert (s + t)[..|s + t| - 1] == s + t[..|t| - 1];
    }
  }

  /** The whole digest in hexadecimal. */
  method Md5Hex(e: seq<Octet>) returns (t: string)
    ensures t == Hex(DigestBytes(Streamed(e)))
    ensures |e| < 0x2000_0000 ==>
              var r := Digest(e);
              t == Hex(DigestBytes(r)) && |t| == 32 && ReadHex(t) == Bytes(r.a) + Bytes(r.b) + Bytes(r.c) + Bytes(r.d)
  {
    hide Streamed, Digest, Hex, ReadHex, Bytes, ShortPadded, Padded, RegsOf;
    if |e| < 0x2000_0000 {
      PaddedExactly(e);
    }
    var n := Md51(e);
    RegsAre(n[..]);
    var a := Rhex(n[0]);
    var b := Rhex(n[1]);
    var c := Rhex(n[2]);
    var d := Rhex(n[3]);
    t := a + b + c + d;
    HexConcat(Bytes(n[0]), Bytes(n[1]));
    HexConcat(Bytes(n[0]) + Bytes(n[1]), Bytes(n[2]));
    HexConcat(Bytes(n[0]) + Bytes(n[1]) + Bytes(n[2]), Bytes(n[3]));
    HexReadsBack(DigestBytes(Streamed(e)));
  }
}
