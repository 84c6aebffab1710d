/** Sections 3.1 to 3.3 of RFC 1321: the padded message, its blocks, and the digest. */
module Md5Padding {
  import opened Bits
  import opened Md5Rounds

  /** 8 bits. */
  datatype Octet = Octet(bits: bv8)

  const NUL := Octet(0)
  const ONE_BIT := Octet(0x80)

  function LittleEndian(b0: bv8, b1: bv8, b2: bv8, b3: bv8): bv32 {
    (b0 as bv32) | ((b1 as bv32) << 8) | ((b2 as bv32) << 16) | ((b3 as bv32) << 24)
  }

  /** Four bytes as a word, low-order byte first. */
  function FromBytes(b0: Octet, b1: Octet, b2: Octet, b3: Octet): Word {
    Word(LittleEndian(b0.bits, b1.bits, b2.bits, b3.bits))
  }

  function ByteOf(w: bv32, k: nat): bv8
    requires k < 4
  {
    if k == 0 then (w & 0xff) as bv8
    else if k == 1 then ((w >> 8) & 0xff) as bv8
    else if k == 2 then ((w >> 16) & 0xff) as bv8
    else (w >> 24) as bv8
  }

  /** A word as four bytes, low-order byte first. */
  function Bytes(w: Word): (b: seq<Octet>)
    ensures |b| == 4
  {
    [Octet(ByteOf(w.bits, 0)), Octet(ByteOf(w.bits, 1)), Octet(ByteOf(w.bits, 2)), Octet(ByteOf(w.bits, 3))]
  }

  lemma BytesBack(w: Word)
    ensures FromBytes(Bytes(w)[0], Bytes(w)[1], Bytes(w)[2], Bytes(w)[3]) == w
  {
    BitsBack(w.bits);
    hide LittleEndian, ByteOf;
  }

  lemma BitsBack(w: bv32)
    ensures LittleEndian(ByteOf(w, 0), ByteOf(w, 1), ByteOf(w, 2), ByteOf(w, 3)) == w
  {
    var b0, b1, b2, b3 := ByteOf(w, 0), ByteOf(w, 1), ByteOf(w, 2), ByteOf(w, 3);
    assert b0 as bv32 == w & 0xff;
    assert (b1 as bv32) << 8 == w & 0xff00;
    assert (b2 as bv32) << 16 == w & 0xff0000;
    assert (b3 as bv32) << 24 == w & 0xff000000;
    assert ((w & 0xff) | (w & 0xff00) | (w & 0xff0000) | (w & 0xff000000)) == w;
  }

  function Zeros(n: nat): (z: seq<Octet>)
    ensures |z| == n
  {
    seq(n, _ => NUL)
  }

  /** How many zero bytes follow the first byte of the padding, so that 8 bytes are missing to a whole block. */
  function PadLength(n: nat): nat {
    (119 - n % 64) % 64
  }

  /** The message with a single one bit, zero bits, and its length in bits as 64 bits, low-order word first; the
      high-order word is a parameter. */
  function PaddedWith(msg: seq<Octet>, high: Word): seq<Octet> {
    msg + [ONE_BIT] + Zeros(PadLength(|msg|)) + Bytes(NumberWord(8 * |msg|)) + Bytes(high)
  }

  function HighOrder(msg: seq<Octet>): Word {
    NumberWord(8 * |msg| / TWO_32)
  }

  function Padded(msg: seq<Octet>): seq<Octet> {
    PaddedWith(msg, HighOrder(msg))
  }

  lemma PaddedLength(msg: seq<Octet>, high: Word)
    ensures |PaddedWith(msg, high)| % 64 == 0
    ensures |PaddedWith(msg, high)| / 64 == |msg| / 64 + if |msg| % 64 <= 55 then 1 else 2
  {
    hide NumberWord, Bytes;
    assert |PaddedWith(msg, high)| == |msg| + 9 + PadLength(|msg|);
    hide PaddedWith;
  }

  /** The sixteen words of a block. */
  function Words(b: seq<Octet>): (s: seq<Word>)
    requires |b| == 64
    ensures |s| == 16
    ensures forall w :: 0 <= w < 16 ==> s[w] == FromBytes(b[4 * w], b[4 * w + 1], b[4 * w + 2], b[4 * w + 3])
  {
    seq(16, w requires 0 <= w < 16 => FromBytes(b[4 * w], b[4 * w + 1], b[4 * w + 2], b[4 * w + 3]))
  }

  function Block(p: seq<Octet>, j: nat): seq<Octet>
    requires 64 * j + 64 <= |p|
  {
    p[64 * j..64 * j + 64]
  }

  /** The four registers as the standard initialises them: the bytes 01 23 45 67 89 ab .. and back. */
  const Initial := Regs(NumberWord(0x67452301), NumberWord(0xefcdab89), NumberWord(0x98badcfe), NumberWord(0x10325476))

  /** The registers after the first n blocks. */
  function Digested(p: seq<Octet>, n: nat): Regs
    requires 64 * n <= |p|
  {
    if n == 0 then Initial else Process(Digested(p, n - 1), Words(Block(p, n - 1)))
  }

  /** The digest of a message. */
  function Digest(msg: seq<Octet>): Regs {
    PaddedLength(msg, HighOrder(msg));
    Digested(Padded(msg), |Padded(msg)| / 64)
  }

  // ---------------------------------------------------------------- the blocks of a padded message

  /** The whole blocks of the message itself. */
  lemma WholeBlock(msg: seq<Octet>, high: Word, j: nat)
    requires 64 * j + 64 <= |msg|
    ensures 64 * j + 64 <= |PaddedWith(msg, high)|
    ensures Block(PaddedWith(msg, high), j) == msg[64 * j..64 * j + 64]
  {
  }

  /** The blocks after them: one if the rest of the message leaves room for the length, else two. */
  lemma TailBlocks(msg: seq<Octet>, high: Word, m: nat, rest: seq<Octet>)
    requires m == |msg| / 64 && rest == msg[64 * m..]
    ensures |rest| < 64
    ensures var p, n := PaddedWith(msg, high), |rest|;
      if n <= 55 then
        |p| == 64 * m + 64
        && Block(p, m) == rest + [ONE_BIT] + Zeros(55 - n) + Bytes(NumberWord(8 * |msg|)) + Bytes(high)
      else
        |p| == 64 * m + 128
        && Block(p, m) == rest + [ONE_BIT] + Zeros(63 - n)
        && Block(p, m + 1) == Zeros(56) + Bytes(NumberWord(8 * |msg|)) + Bytes(high)
  {
    PaddedLength(msg, high);
    var n := |rest|;
    assert msg == msg[..64 * m] + rest;
    hide Bytes, NumberWord;
    var p := PaddedWith(msg, high);
    if n <= 55 {
      assert PadLength(|msg|) == 55 - n;
      assert Block(p, m) == rest + [ONE_BIT] + Zeros(55 - n) + Bytes(NumberWord(8 * |msg|)) + Bytes(high);
    } else {
      assert PadLength(|msg|) == 119 - n;
      assert Block(p, m) == rest + [ONE_BIT] + Zeros(63 - n);
      assert Block(p, m + 1) == Zeros(56) + Bytes(NumberWord(8 * |msg|)) + Bytes(high);
    }
  }
}
