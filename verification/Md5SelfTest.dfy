/** The self-test of the script, on the side of the standard: section 3 of RFC 1321, worked out for the message "hello",
    gives the digest with which the script compares its own. */
module Md5SelfTest {
  import opened Bits
  import opened Md5Padding
  import opened Md5Rounds
  import Md5

  /** "hello" in ASCII. */
  const HELLO := [Octet(0x68), Octet(0x65), Octet(0x6c), Octet(0x6c), Octet(0x6f)]

  /** The words of the only block of the padded message. */
  function XBits(k: nat): bv32 {
    if k == 0 then 0x6c6c6568 else if k == 1 then 0x806f else if k == 14 then 40 else 0
  }

  function X(): (x: seq<Word>)
    ensures |x| == 16 && forall k :: 0 <= k < 16 ==> x[k] == Word(XBits(k))
  {
    seq(16, k requires 0 <= k < 16 => Word(XBits(k)))
  }

  /** A literal word and its literal number. */
  lemma Literal(w: bv32, n: int)
    requires n == Spelled(w)
    ensures NumberWord(n) == Word(w)
  {
    ValSpelled(w);
    ValRange(w);
    hide Spelled, WordOf, Val;
    WordSpelled(w, n);
  }

  // ---------------------------------------------------------------- the table as words

  lemma Table0()
    ensures NumberWord(T(0)) == Word(0xd76aa478) && NumberWord(T(1)) == Word(0xe8c7b756)
    ensures NumberWord(T(2)) == Word(0x242070db) && NumberWord(T(3)) == Word(0xc1bdceee)
    ensures NumberWord(T(4)) == Word(0xf57c0faf) && NumberWord(T(5)) == Word(0x4787c62a)
    ensures NumberWord(T(6)) == Word(0xa8304613) && NumberWord(T(7)) == Word(0xfd469501)
    ensures NumberWord(T(8)) == Word(0x698098d8) && NumberWord(T(9)) == Word(0x8b44f7af)
    ensures NumberWord(T(10)) == Word(0xffff5bb1) && NumberWord(T(11)) == Word(0x895cd7be)
    ensures NumberWord(T(12)) == Word(0x6b901122) && NumberWord(T(13)) == Word(0xfd987193)
    ensures NumberWord(T(14)) == Word(0xa679438e) && NumberWord(T(15)) == Word(0x49b40821)
  {
    hide NumberWord;
    Literal(0xd76aa478, 0xd76aa478);
    Literal(0xe8c7b756, 0xe8c7b756);
    Literal(0x242070db, 0x242070db);
    Literal(0xc1bdceee, 0xc1bdceee);
    Literal(0xf57c0faf, 0xf57c0faf);
    Literal(0x4787c62a, 0x4787c62a);
    Literal(0xa8304613, 0xa8304613);
    Literal(0xfd469501, 0xfd469501);
    Literal(0x698098d8, 0x698098d8);
    Literal(0x8b44f7af, 0x8b44f7af);
    Literal(0xffff5bb1, 0xffff5bb1);
    Literal(0x895cd7be, 0x895cd7be);
    Literal(0x6b901122, 0x6b901122);
    Literal(0xfd987193, 0xfd987193);
    Literal(0xa679438e, 0xa679438e);
    Literal(0x49b40821, 0x49b40821);
  }

  lemma Table1()
    ensures NumberWord(T(16)) == Word(0xf61e2562) && NumberWord(T(17)) == Word(0xc040b340)
    ensures NumberWord(T(18)) == Word(0x265e5a51) && NumberWord(T(19)) == Word(0xe9b6c7aa)
    ensures NumberWord(T(20)) == Word(0xd62f105d) && NumberWord(T(21)) == Word(0x02441453)
    ensures NumberWord(T(22)) == Word(0xd8a1e681) && NumberWord(T(23)) == Word(0xe7d3fbc8)
    ensures NumberWord(T(24)) == Word(0x21e1cde6) && NumberWord(T(25)) == Word(0xc33707d6)
    ensures NumberWord(T(26)) == Word(0xf4d50d87) && NumberWord(T(27)) == Word(0x455a14ed)
    ensures NumberWord(T(28)) == Word(0xa9e3e905) && NumberWord(T(29)) == Word(0xfcefa3f8)
    ensures NumberWord(T(30)) == Word(0x676f02d9) && NumberWord(T(31)) == Word(0x8d2a4c8a)
  {
    hide NumberWord;
    Literal(0xf61e2562, 0xf61e2562);
    Literal(0xc040b340, 0xc040b340);
    Literal(0x265e5a51, 0x265e5a51);
    Literal(0xe9b6c7aa, 0xe9b6c7aa);
    Literal(0xd62f105d, 0xd62f105d);
    Literal(0x02441453, 0x02441453);
    Literal(0xd8a1e681, 0xd8a1e681);
    Literal(0xe7d3fbc8, 0xe7d3fbc8);
    Literal(0x21e1cde6, 0x21e1cde6);
    Literal(0xc33707d6, 0xc33707d6);
    Literal(0xf4d50d87, 0xf4d50d87);
    Literal(0x455a14ed, 0x455a14ed);
    Literal(0xa9e3e905, 0xa9e3e905);
    Literal(0xfcefa3f8, 0xfcefa3f8);
    Literal(0x676f02d9, 0x676f02d9);
    Literal(0x8d2a4c8a, 0x8d2a4c8a);
  }

  lemma Table2()
    ensures NumberWord(T(32)) == Word(0xfffa3942) && NumberWord(T(33)) == Word(0x8771f681)
    ensures NumberWord(T(34)) == Word(0x6d9d6122) && NumberWord(T(35)) == Word(0xfde5380c)
    ensures NumberWord(T(36)) == Word(0xa4beea44) && NumberWord(T(37)) == Word(0x4bdecfa9)
    ensures NumberWord(T(38)) == Word(0xf6bb4b60) && NumberWord(T(39)) == Word(0xbebfbc70)
    ensures NumberWord(T(40)) == Word(0x289b7ec6) && NumberWord(T(41)) == Word(0xeaa127fa)
    ensures NumberWord(T(42)) == Word(0xd4ef3085) && NumberWord(T(43)) == Word(0x04881d05)
    ensures NumberWord(T(44)) == Word(0xd9d4d039) && NumberWord(T(45)) == Word(0xe6db99e5)
    ensures NumberWord(T(46)) == Word(0x1fa27cf8) && NumberWord(T(47)) == Word(0xc4ac5665)
  {
    hide NumberWord;
    Literal(0xfffa3942, 0xfffa3942);
    Literal(0x8771f681, 0x8771f681);
    Literal(0x6d9d6122, 0x6d9d6122);
    Literal(0xfde5380c, 0xfde5380c);
    Literal(0xa4beea44, 0xa4beea44);
    Literal(0x4bdecfa9, 0x4bdecfa9);
    Literal(0xf6bb4b60, 0xf6bb4b60);
    Literal(0xbebfbc70, 0xbebfbc70);
    Literal(0x289b7ec6, 0x289b7ec6);
    Literal(0xeaa127fa, 0xeaa127fa);
    Literal(0xd4ef3085, 0xd4ef3085);
    Literal(0x04881d05, 0x04881d05);
    Literal(0xd9d4d039, 0xd9d4d039);
    Literal(0xe6db99e5, 0xe6db99e5);
    Literal(0x1fa27cf8, 0x1fa27cf8);
    Literal(0xc4ac5665, 0xc4ac5665);
  }

  lemma Table3()
    ensures NumberWord(T(48)) == Word(0xf4292244) && NumberWord(T(49)) == Word(0x432aff97)
    ensures NumberWord(T(50)) == Word(0xab9423a7) && NumberWord(T(51)) == Word(0xfc93a039)
    ensures NumberWord(T(52)) == Word(0x655b59c3) && NumberWord(T(53)) == Word(0x8f0ccc92)
    ensures NumberWord(T(54)) == Word(0xffeff47d) && NumberWord(T(55)) == Word(0x85845dd1)
    ensures NumberWord(T(56)) == Word(0x6fa87e4f) && NumberWord(T(57)) == Word(0xfe2ce6e0)
    ensures NumberWord(T(58)) == Word(0xa3014314) && NumberWord(T(59)) == Word(0x4e0811a1)
    ensures NumberWord(T(60)) == Word(0xf7537e82) && NumberWord(T(61)) == Word(0xbd3af235)
    ensures NumberWord(T(62)) == Word(0x2ad7d2bb) && NumberWord(T(63)) == Word(0xeb86d391)
  {
    hide NumberWord;
    Literal(0xf4292244, 0xf4292244);
    Literal(0x432aff97, 0x432aff97);
    Literal(0xab9423a7, 0xab9423a7);
    Literal(0xfc93a039, 0xfc93a039);
    Literal(0x655b59c3, 0x655b59c3);
    Literal(0x8f0ccc92, 0x8f0ccc92);
    Literal(0xffeff47d, 0xffeff47d);
    Literal(0x85845dd1, 0x85845dd1);
    Literal(0x6fa87e4f, 0x6fa87e4f);
    Literal(0xfe2ce6e0, 0xfe2ce6e0);
    Literal(0xa3014314, 0xa3014314);
    Literal(0x4e0811a1, 0x4e0811a1);
    Literal(0xf7537e82, 0xf7537e82);
    Literal(0xbd3af235, 0xbd3af235);
    Literal(0x2ad7d2bb, 0x2ad7d2bb);
    Literal(0xeb86d391, 0xeb86d391);
  }

  // ---------------------------------------------------------------- four operations at a time

  function Mixed(round: nat, b: bv32, c: bv32, d: bv32): bv32 {
    if round == 0 then FBits(b, c, d) else if round == 1 then GBits(b, c, d)
    else if round == 2 then HBits(b, c, d) else IBits(b, c, d)
  }

  lemma BitsOfWord(b: bv32)
    ensures Word(b).bits == b
  {
  }

  lemma MixedIs(round: nat, x: Word, y: Word, z: Word)
    ensures Auxiliary(round, x, y, z) == Word(Mixed(round, x.bits, y.bits, z.bits))
  {
    hide FBits, GBits, HBits, IBits;
  }

  lemma OperationIs(i: nat, a: bv32, b: bv32, c: bv32, d: bv32, k: nat, t: bv32, s: nat, v: bv32)
    requires i < 64 && K(i) == k && Shift(i) == s && NumberWord(T(i)) == Word(t)
    requires v == Plus(b, Rotated(Plus(Plus(Plus(a, Mixed(i / 16, b, c, d)), XBits(k)), t), s))
    ensures Operation(i, Word(a), Word(b), Word(c), Word(d), X()) == Word(v)
  {
    MixedIs(i / 16, Word(b), Word(c), Word(d));
    BitsOfWord(b);
    BitsOfWord(c);
    BitsOfWord(d);
    hide NumberWord, T, K, Shift, Plus, Rotated, Auxiliary, Mixed, X, XBits;
  }

  lemma Eight0()
    requires Operations(0, Initial, X()) == Regs(Word(0x67452301), Word(0xefcdab89), Word(0x98badcfe), Word(0x10325476))
    ensures Operations(8, Initial, X()) == Regs(Word(0x0f9df22f), Word(0xba47ed48), Word(0xcbbe3aff), Word(0x99848a72))
  {
    Table0();
    Order0();
    hide Operations, Operation, T, K, Shift, NumberWord, X;
    OperationIs(0, 0x67452301, 0xefcdab89, 0x98badcfe, 0x10325476, 0, 0xd76aa478, 7, 0xdb529b2a);
    OperationIs(1, 0x10325476, 0xdb529b2a, 0xefcdab89, 0x98badcfe, 1, 0xe8c7b756, 12, 0x11141778);
    OperationIs(2, 0x98badcfe, 0x11141778, 0xdb529b2a, 0xefcdab89, 2, 0x242070db, 17, 0x241990e2);
    OperationIs(3, 0xefcdab89, 0x241990e2, 0x11141778, 0xdb529b2a, 3, 0xc1bdceee, 22, 0x9bfcc847);
    QuadIsFour(0, Initial, X());
    OperationIs(4, 0xdb529b2a, 0x9bfcc847, 0x241990e2, 0x11141778, 4, 0xf57c0faf, 7, 0x0f9df22f);
    OperationIs(5, 0x11141778, 0x0f9df22f, 0x9bfcc847, 0x241990e2, 5, 0x4787c62a, 12, 0x99848a72);
    OperationIs(6, 0x241990e2, 0x99848a72, 0x0f9df22f, 0x9bfcc847, 6, 0xa8304613, 17, 0xcbbe3aff);
    OperationIs(7, 0x9bfcc847, 0xcbbe3aff, 0x99848a72, 0x0f9df22f, 7, 0xfd469501, 22, 0xba47ed48);
    QuadIsFour(1, Initial, X());
  }

  lemma Eight1()
    requires Operations(8, Initial, X()) == Regs(Word(0x0f9df22f), Word(0xba47ed48), Word(0xcbbe3aff), Word(0x99848a72))
    ensures Operations(16, Initial, X()) == Regs(Word(0x450959ef), Word(0xb693b95c), Word(0xd8f68bbf), Word(0xff9580ae))
  {
    Table0();
    Order0();
    hide Operations, Operation, T, K, Shift, NumberWord, X;
    OperationIs(8, 0x0f9df22f, 0xba47ed48, 0xcbbe3aff, 0x99848a72, 8, 0x698098d8, 7, 0x0ca2adca);
    OperationIs(9, 0x99848a72, 0x0ca2adca, 0xba47ed48, 0xcbbe3aff, 9, 0x8b44f7af, 12, 0x90bc9cc8);
    OperationIs(10, 0xcbbe3aff, 0x90bc9cc8, 0x0ca2adca, 0xba47ed48, 10, 0xffff5bb1, 17, 0x99ae8a0b);
    OperationIs(11, 0xba47ed48, 0x99ae8a0b, 0x90bc9cc8, 0x0ca2adca, 11, 0x895cd7be, 22, 0x4d649e67);
    QuadIsFour(2, Initial, X());
    OperationIs(12, 0x0ca2adca, 0x4d649e67, 0x99ae8a0b, 0x90bc9cc8, 12, 0x6b901122, 7, 0x450959ef);
    OperationIs(13, 0x90bc9cc8, 0x450959ef, 0x4d649e67, 0x99ae8a0b, 13, 0xfd987193, 12, 0xff9580ae);
    OperationIs(14, 0x99ae8a0b, 0xff9580ae, 0x450959ef, 0x4d649e67, 14, 0xa679438e, 17, 0xd8f68bbf);
    OperationIs(15, 0x4d649e67, 0xd8f68bbf, 0xff9580ae, 0x450959ef, 15, 0x49b40821, 22, 0xb693b95c);
    QuadIsFour(3, Initial, X());
  }

  lemma Eight2()
    requires Operations(16, Initial, X()) == Regs(Word(0x450959ef), Word(0xb693b95c), Word(0xd8f68bbf), Word(0xff9580ae))
    ensures Operations(24, Initial, X()) == Regs(Word(0x0c849f2a), Word(0x3ac98917), Word(0xc3dccef3), Word(0x4032e0d0))
  {
    Table1();
    Order1();
    hide Operations, Operation, T, K, Shift, NumberWord, X;
    OperationIs(16, 0x450959ef, 0xb693b95c, 0xd8f68bbf, 0xff9580ae, 1, 0xf61e2562, 5, 0xfa05151a);
    OperationIs(17, 0xff9580ae, 0xfa05151a, 0xb693b95c, 0xd8f68bbf, 6, 0xc040b340, 9, 0xb0cfa695);
    OperationIs(18, 0xd8f68bbf, 0xb0cfa695, 0xfa05151a, 0xb693b95c, 11, 0x265e5a51, 14, 0xd359648c);
    OperationIs(19, 0xb693b95c, 0xd359648c, 0xb0cfa695, 0xfa05151a, 0, 0xe9b6c7aa, 20, 0xa3175cb4);
    QuadIsFour(4, Initial, X());
    OperationIs(20, 0xfa05151a, 0xa3175cb4, 0xd359648c, 0xb0cfa695, 5, 0xd62f105d, 5, 0x0c849f2a);
    OperationIs(21, 0xb0cfa695, 0x0c849f2a, 0xa3175cb4, 0xd359648c, 10, 0x02441453, 9, 0x4032e0d0);
    OperationIs(22, 0xd359648c, 0x4032e0d0, 0x0c849f2a, 0xa3175cb4, 15, 0xd8a1e681, 14, 0xc3dccef3);
    OperationIs(23, 0xa3175cb4, 0xc3dccef3, 0x4032e0d0, 0x0c849f2a, 4, 0xe7d3fbc8, 20, 0x3ac98917);
    QuadIsFour(5, Initial, X());
  }

  lemma Eight3()
    requires Operations(24, Initial, X()) == Regs(Word(0x0c849f2a), Word(0x3ac98917), Word(0xc3dccef3), Word(0x4032e0d0))
    ensures Operations(32, Initial, X()) == Regs(Word(0xf4468fac), Word(0x1e58bdd5), Word(0x9978d034), Word(0x5ad7c223))
  {
    Table1();
    Order1();
    hide Operations, Operation, T, K, Shift, NumberWord, X;
    OperationIs(24, 0x0c849f2a, 0x3ac98917, 0xc3dccef3, 0x4032e0d0, 9, 0x21e1cde6, 5, 0x8128f18d);
    OperationIs(25, 0x4032e0d0, 0x8128f18d, 0x3ac98917, 0xc3dccef3, 14, 0xc33707d6, 9, 0x687d9905);
    OperationIs(26, 0xc3dccef3, 0x687d9905, 0x8128f18d, 0x3ac98917, 3, 0xf4d50d87, 14, 0x5dff718b);
    OperationIs(27, 0x3ac98917, 0x5dff718b, 0x687d9905, 0x8128f18d, 8, 0x455a14ed, 20, 0xd6de0b9c);
    QuadIsFour(6, Initial, X());
    OperationIs(28, 0x8128f18d, 0xd6de0b9c, 0x5dff718b, 0x687d9905, 13, 0xa9e3e905, 5, 0xf4468fac);
    OperationIs(29, 0x687d9905, 0xf4468fac, 0xd6de0b9c, 0x5dff718b, 2, 0xfcefa3f8, 9, 0x5ad7c223);
    OperationIs(30, 0x5dff718b, 0x5ad7c223, 0xf4468fac, 0xd6de0b9c, 7, 0x676f02d9, 14, 0x9978d034);
    OperationIs(31, 0xd6de0b9c, 0x9978d034, 0x5ad7c223, 0xf4468fac, 12, 0x8d2a4c8a, 20, 0x1e58bdd5);
    QuadIsFour(7, Initial, X());
  }

  lemma Eight4()
    requires Operations(32, Initial, X()) == Regs(Word(0xf4468fac), Word(0x1e58bdd5), Word(0x9978d034), Word(0x5ad7c223))
    ensures Operations(40, Initial, X()) == Regs(Word(0xbf13a1b5), Word(0xb200fe58), Word(0x7ca5af9e), Word(0xbc2a082a))
  {
    Table2();
    Order2();
    hide Operations, Operation, T, K, Shift, NumberWord, X;
    OperationIs(32, 0xf4468fac, 0x1e58bdd5, 0x9978d034, 0x5ad7c223, 5, 0xfffa3942, 4, 0x41e048e2);
    OperationIs(33, 0x5ad7c223, 0x41e048e2, 0x1e58bdd5, 0x9978d034, 8, 0x8771f681, 11, 0x90cd862a);
    OperationIs(34, 0x9978d034, 0x90cd862a, 0x41e048e2, 0x1e58bdd5, 11, 0x6d9d6122, 16, 0x35415cb5);
    OperationIs(35, 0x1e58bdd5, 0x35415cb5, 0x90cd862a, 0x41e048e2, 14, 0xfde5380c, 23, 0x7841b1f9);
    QuadIsFour(8, Initial, X());
    OperationIs(36, 0x41e048e2, 0x7841b1f9, 0x35415cb5, 0x90cd862a, 1, 0xa4beea44, 4, 0xbf13a1b5);
    OperationIs(37, 0x90cd862a, 0xbf13a1b5, 0x7841b1f9, 0x35415cb5, 4, 0x4bdecfa9, 11, 0xbc2a082a);
    OperationIs(38, 0x35415cb5, 0xbc2a082a, 0xbf13a1b5, 0x7841b1f9, 7, 0xf6bb4b60, 16, 0x7ca5af9e);
    OperationIs(39, 0x7841b1f9, 0x7ca5af9e, 0xbc2a082a, 0xbf13a1b5, 10, 0xbebfbc70, 23, 0xb200fe58);
    QuadIsFour(9, Initial, X());
  }

  lemma Eight5()
    requires Operations(40, Initial, X()) == Regs(Word(0xbf13a1b5), Word(0xb200fe58), Word(0x7ca5af9e), Word(0xbc2a082a))
    ensures Operations(48, Initial, X()) == Regs(Word(0x1cf97337), Word(0xcd289f17), Word(0x45677c62), Word(0xb9fc4957))
  {
    Table2();
    Order2();
    hide Operations, Operation, T, K, Shift, NumberWord, X;
    OperationIs(40, 0xbf13a1b5, 0xb200fe58, 0x7ca5af9e, 0xbc2a082a, 13, 0x289b7ec6, 4, 0x55e8a4cd);
    OperationIs(41, 0xbc2a082a, 0x55e8a4cd, 0xb200fe58, 0x7ca5af9e, 0, 0xeaa127fa, 11, 0x823d6241);
    OperationIs(42, 0x7ca5af9e, 0x823d6241, 0x55e8a4cd, 0xb200fe58, 3, 0xd4ef3085, 16, 0x9b3519ab);
    OperationIs(43, 0xb200fe58, 0x9b3519ab, 0x823d6241, 0x55e8a4cd, 6, 0x04881d05, 23, 0xdd36cea8);
    QuadIsFour(10, Initial, X());
    OperationIs(44, 0x55e8a4cd, 0xdd36cea8, 0x9b3519ab, 0x823d6241, 9, 0xd9d4d039, 4, 0x1cf97337);
    OperationIs(45, 0x823d6241, 0x1cf97337, 0xdd36cea8, 0x9b3519ab, 12, 0xe6db99e5, 11, 0xb9fc4957);
    OperationIs(46, 0x9b3519ab, 0xb9fc4957, 0x1cf97337, 0xdd36cea8, 15, 0x1fa27cf8, 16, 0x45677c62);
    OperationIs(47, 0xdd36cea8, 0x45677c62, 0xb9fc4957, 0x1cf97337, 2, 0xc4ac5665, 23, 0xcd289f17);
    QuadIsFour(11, Initial, X());
  }

  lemma Eight6()
    requires Operations(48, Initial, X()) == Regs(Word(0x1cf97337), Word(0xcd289f17), Word(0x45677c62), Word(0xb9fc4957))
    ensures Operations(56, Initial, X()) == Regs(Word(0x77dedf30), Word(0x63d304c3), Word(0x2fe7c1f5), Word(0x4f1b6427))
  {
    Table3();
    Order3();
    hide Operations, Operation, T, K, Shift, NumberWord, X;
    OperationIs(48, 0x1cf97337, 0xcd289f17, 0x45677c62, 0xb9fc4957, 0, 0xf4292244, 6, 0xc4184f18);
    OperationIs(49, 0xb9fc4957, 0xc4184f18, 0xcd289f17, 0x45677c62, 7, 0x432aff97, 10, 0x227e2fdb);
    OperationIs(50, 0x45677c62, 0x227e2fdb, 0xc4184f18, 0xcd289f17, 14, 0xab9423a7, 15, 0x8308a3cc);
    OperationIs(51, 0xcd289f17, 0x8308a3cc, 0x227e2fdb, 0xc4184f18, 5, 0xfc93a039, 21, 0xf3950d87);
    QuadIsFour(12, Initial, X());
    OperationIs(52, 0xc4184f18, 0xf3950d87, 0x8308a3cc, 0x227e2fdb, 12, 0x655b59c3, 6, 0x77dedf30);
    OperationIs(53, 0x227e2fdb, 0x77dedf30, 0xf3950d87, 0x8308a3cc, 3, 0x8f0ccc92, 10, 0x4f1b6427);
    OperationIs(54, 0x8308a3cc, 0x4f1b6427, 0x77dedf30, 0xf3950d87, 10, 0xffeff47d, 15, 0x2fe7c1f5);
    OperationIs(55, 0xf3950d87, 0x2fe7c1f5, 0x4f1b6427, 0x77dedf30, 1, 0x85845dd1, 21, 0x63d304c3);
    QuadIsFour(13, Initial, X());
  }

  lemma Eight7()
    requires Operations(56, Initial, X()) == Regs(Word(0x77dedf30), Word(0x63d304c3), Word(0x2fe7c1f5), Word(0x4f1b6427))
    ensures Operations(64, Initial, X()) == Regs(Word(0xc2fb1e5c), Word(0x865ca033), Word(0xf8e294bb), Word(0x8292c29a))
  {
    Table3();
    Order3();
    hide Operations, Operation, T, K, Shift, NumberWord, X;
    OperationIs(56, 0x77dedf30, 0x63d304c3, 0x2fe7c1f5, 0x4f1b6427, 8, 0x6fa87e4f, 6, 0x49c1f033);
    OperationIs(57, 0x4f1b6427, 0x49c1f033, 0x63d304c3, 0x2fe7c1f5, 15, 0xfe2ce6e0, 10, 0x96d9ec50);
    OperationIs(58, 0x2fe7c1f5, 0x96d9ec50, 0x49c1f033, 0x63d304c3, 6, 0xa3014314, 15, 0x21064162);
    OperationIs(59, 0x63d304c3, 0x21064162, 0x96d9ec50, 0x49c1f033, 13, 0x4e0811a1, 21, 0x6560b9b9);
    QuadIsFour(14, Initial, X());
    OperationIs(60, 0x49c1f033, 0x6560b9b9, 0x21064162, 0x96d9ec50, 4, 0xf7537e82, 6, 0xc2fb1e5c);
    OperationIs(61, 0x96d9ec50, 0xc2fb1e5c, 0x6560b9b9, 0x21064162, 11, 0xbd3af235, 10, 0x8292c29a);
    OperationIs(62, 0x21064162, 0x8292c29a, 0xc2fb1e5c, 0x6560b9b9, 2, 0x2ad7d2bb, 15, 0xf8e294bb);
    OperationIs(63, 0x6560b9b9, 0xf8e294bb, 0x8292c29a, 0xc2fb1e5c, 9, 0xeb86d391, 21, 0x865ca033);
    QuadIsFour(15, Initial, X());
  }

  // ---------------------------------------------------------------- the digest

  lemma HelloPadded()
    ensures Padded(HELLO) == HELLO + [ONE_BIT] + Zeros(50) + Bytes(Word(40)) + Bytes(Word(0))
  {
    Literal(40, 40);
    Literal(0, 0);
    assert |HELLO| == 5 && PadLength(5) == 50;
    assert HighOrder(HELLO) == Word(0);
    hide NumberWord, Bytes, HighOrder, PadLength, Zeros;
  }

  lemma HelloIsX()
    ensures |Padded(HELLO)| == 64 && Words(Block(Padded(HELLO), 0)) == X()
  {
    HelloPadded();
    var p := Padded(HELLO);
    hide Padded;
    assert |p| == 64;
    assert Block(p, 0) == p;
  }

  lemma FirstRegisters()
    ensures Initial == Regs(Word(0x67452301), Word(0xefcdab89), Word(0x98badcfe), Word(0x10325476))
  {
    Literal(0x67452301, 0x67452301);
    Literal(0xefcdab89, 0xefcdab89);
    Literal(0x98badcfe, 0x98badcfe);
    Literal(0x10325476, 0x10325476);
    hide NumberWord;
  }

  lemma AddIs(a: bv32, b: bv32, v: bv32)
    requires v == Plus(a, b)
    ensures Add(Word(a), Word(b)) == Word(v)
  {
    hide Plus;
  }

  lemma HelloProcessed()
    ensures Process(Initial, X()) == Regs(Word(0x2a40415d), Word(0x762a4bbc), Word(0x919d71b9), Word(0x92c51710))
  {
    FirstRegisters();
    hide Operations, X, Add;
    assert Operations(0, Initial, X()) == Initial by { NoOperations(Initial); }
    Eight0();
    Eight1();
    Eight2();
    Eight3();
    Eight4();
    Eight5();
    Eight6();
    Eight7();
    AddIs(0x67452301, 0xc2fb1e5c, 0x2a40415d);
    AddIs(0xefcdab89, 0x865ca033, 0x762a4bbc);
    AddIs(0x98badcfe, 0xf8e294bb, 0x919d71b9);
    AddIs(0x10325476, 0x8292c29a, 0x92c51710);
  }

  lemma NoOperations(r: Regs)
    ensures Operations(0, r, X()) == r
  {
  }

  lemma HelloDigest()
    ensures Digest(HELLO) == Regs(Word(0x2a40415d), Word(0x762a4bbc), Word(0x919d71b9), Word(0x92c51710))
  {
    HelloIsX();
    HelloProcessed();
    hide Process, X, Words, Block, Padded;
    assert Digested(Padded(HELLO), 0) == Initial;
  }

  lemma HexOfFour(a: Octet, b: Octet, c: Octet, d: Octet)
    ensures Md5.Hex([a, b, c, d]) == Md5.HexByte(a) + Md5.HexByte(b) + Md5.HexByte(c) + Md5.HexByte(d)
  {
    HexOfOne(a);
    HexOfOne(b);
    HexOfOne(c);
    HexOfOne(d);
    hide Md5.Hex, Md5.HexByte;
    Md5.HexConcat([a], [b]);
    Md5.HexConcat([a] + [b], [c]);
    Md5.HexConcat([a] + [b] + [c], [d]);
    assert [a] + [b] + [c] + [d] == [a, b, c, d];
  }

  /** A word in hexadecimal, digit by digit. */
  lemma HexOfBits(w: bv32)
    ensures Md5.Hex(Bytes(Word(w))) ==
            [Md5.HexDigit(Md5.Nibble(w, 1)), Md5.HexDigit(Md5.Nibble(w, 0)),
             Md5.HexDigit(Md5.Nibble(w, 3)), Md5.HexDigit(Md5.Nibble(w, 2)),
             Md5.HexDigit(Md5.Nibble(w, 5)), Md5.HexDigit(Md5.Nibble(w, 4)),
             Md5.HexDigit(Md5.Nibble(w, 7)), Md5.HexDigit(Md5.Nibble(w, 6))]
  {
    Md5.DigitsOfByte(Word(w), 0);
    Md5.DigitsOfByte(Word(w), 1);
    Md5.DigitsOfByte(Word(w), 2);
    Md5.DigitsOfByte(Word(w), 3);
    var b := Bytes(Word(w));
    hide Bytes, Md5.Nibble, Md5.HexDigit, Md5.HexByte, Md5.Hex;
    HexOfFour(b[0], b[1], b[2], b[3]);
    assert b == [b[0], b[1], b[2], b[3]];
  }

  lemma HexOfOne(b: Octet)
    ensures Md5.Hex([b]) == Md5.HexByte(b)
  {
    assert [b][..0] == [];
    hide Md5.HexByte;
    assert Md5.Hex([b]) == "" + Md5.HexByte(b);
  }

  lemma HelloInHex()
    ensures Md5.Hex(Bytes(Word(0x2a40415d))) == "5d41402a" && Md5.Hex(Bytes(Word(0x762a4bbc))) == "bc4b2a76"
    ensures Md5.Hex(Bytes(Word(0x919d71b9))) == "b9719d91" && Md5.Hex(Bytes(Word(0x92c51710))) == "1017c592"
  {
    HexOfBits(0x2a40415d);
    HexOfBits(0x762a4bbc);
    HexOfBits(0x919d71b9);
    HexOfBits(0x92c51710);
    hide Bytes, Md5.Hex;
  }

  /** md5("hello") is what the script expects it to be. */
  lemma SelfTest()
    ensures Md5.Hex(Md5.DigestBytes(Digest(HELLO))) == "5d41402abc4b2a76b9719d911017c592"
  {
    HelloDigest();
    HelloInHex();
    hide Digest, Bytes, Md5.Hex;
    var a, b, c, d := Bytes(Word(0x2a40415d)), Bytes(Word(0x762a4bbc)), Bytes(Word(0x919d71b9)), Bytes(Word(0x92c51710));
    Md5.HexConcat(a, b);
    Md5.HexConcat(a + b, c);
    Md5.HexConcat(a + b + c, d);
  }
}
