/** Values published with the hash algorithms, reached from the specifications the loops are
    proved against: they fix every constant, rotation and byte order at once. */
module CheckValues {
  import opened Basics
  import opened Words
  import opened Md5Words
  import B = Md5Block
  import Md5
  import Crc32
  import Crc16
  import Fnv
  import J = Jenkins
  import Murmur

  // ---------- MD5 of the empty message, section A.5 of RFC 1321 ----------

  /** The only block of the padded empty message: the mark and zeros. */
  predicate OnlyMark(m: B.Block) {
    B.Word(m, 0) == 0x80 && forall k: B.WordNo :: k >= 1 ==> B.Word(m, k) == 0
  }

  /** What step i puts into the register it changes. */
  function NewRegister(i: B.StepNo, q: B.Regs, x: bv32, t: bv32, s: Shift): bv32 {
    B.Operation(q.a, q.b, B.Auxiliary(i, q.b, q.c, q.d), x, t, s)
  }

  lemma Turn(m: B.Block, i: B.StepNo, q: B.Regs, x: bv32, t: bv32, s: Shift, r: bv32)
    requires B.Steps(Md5.IV, m, i) == q
    requires B.Word(m, B.WordIndex(i)) == x && B.T(i) == t && B.Rotation(i) == s
    requires Same(NewRegister(i, q, x, t, s), r)
    ensures B.Steps(Md5.IV, m, i + 1) == B.Regs(q.d, r, q.b, q.c)
  {
    hide B.Operation, B.Auxiliary, B.Word, B.WordIndex, B.T, B.Rotation;
  }

  lemma Mark1(m: B.Block)
    requires OnlyMark(m) && B.Steps(Md5.IV, m, 0) == B.Regs(0x67452301, 0xefcdab89, 0x98badcfe, 0x10325476)
    ensures B.Steps(Md5.IV, m, 16) == B.Regs(0xf56c7cf1, 0xd6819c6a, 0x5aa53f75, 0x374943a7)
  {
    hide B.Steps, B.Word, B.WordIndex, B.T, B.Rotation;
    B.Schedule1a();
    B.Sines1a();
    Turn(m, 0, B.Regs(0x67452301, 0xefcdab89, 0x98badcfe, 0x10325476), 0x80, 0xd76aa478, 7, 0xa5202774);
    Turn(m, 1, B.Regs(0x10325476, 0xa5202774, 0xefcdab89, 0x98badcfe), 0, 0xe8c7b756, 12, 0xf59592dd);
    Turn(m, 2, B.Regs(0x98badcfe, 0xf59592dd, 0xa5202774, 0xefcdab89), 0, 0x242070db, 17, 0xe7f06b23);
    Turn(m, 3, B.Regs(0xefcdab89, 0xe7f06b23, 0xf59592dd, 0xa5202774), 0, 0xc1bdceee, 22, 0x1b163203);
    Turn(m, 4, B.Regs(0xa5202774, 0x1b163203, 0xe7f06b23, 0xf59592dd), 0, 0xf57c0faf, 7, 0x32033344);
    Turn(m, 5, B.Regs(0xf59592dd, 0x32033344, 0x1b163203, 0xe7f06b23), 0, 0x4787c62a, 12, 0x2f35d494);
    Turn(m, 6, B.Regs(0xe7f06b23, 0x2f35d494, 0x32033344, 0x1b163203), 0, 0xa8304613, 17, 0xf5b158db);
    Turn(m, 7, B.Regs(0x1b163203, 0xf5b158db, 0x2f35d494, 0x32033344), 0, 0xfd469501, 22, 0x9bc13ce9);
    B.Schedule1b();
    B.Sines1b();
    Turn(m, 8, B.Regs(0x32033344, 0x9bc13ce9, 0xf5b158db, 0x2f35d494), 0, 0x698098d8, 7, 0x3893b991);
    Turn(m, 9, B.Regs(0x2f35d494, 0x3893b991, 0x9bc13ce9, 0xf5b158db), 0, 0x8b44f7af, 12, 0xfce4a312);
    Turn(m, 10, B.Regs(0xf5b158db, 0xfce4a312, 0x3893b991, 0x9bc13ce9), 0, 0xffff5bb1, 17, 0xe1ef0576);
    Turn(m, 11, B.Regs(0x9bc13ce9, 0xe1ef0576, 0xfce4a312, 0x3893b991), 0, 0x895cd7be, 22, 0x70768a29);
    Turn(m, 12, B.Regs(0x3893b991, 0x70768a29, 0xe1ef0576, 0xfce4a312), 0, 0x6b901122, 7, 0xf56c7cf1);
    Turn(m, 13, B.Regs(0xfce4a312, 0xf56c7cf1, 0x70768a29, 0xe1ef0576), 0, 0xfd987193, 12, 0x374943a7);
    Turn(m, 14, B.Regs(0xe1ef0576, 0x374943a7, 0xf56c7cf1, 0x70768a29), 0, 0xa679438e, 17, 0x5aa53f75);
    Turn(m, 15, B.Regs(0x70768a29, 0x5aa53f75, 0x374943a7, 0xf56c7cf1), 0, 0x49b40821, 22, 0xd6819c6a);
  }

  lemma Mark2(m: B.Block)
    requires OnlyMark(m) && B.Steps(Md5.IV, m, 16) == B.Regs(0xf56c7cf1, 0xd6819c6a, 0x5aa53f75, 0x374943a7)
    ensures B.Steps(Md5.IV, m, 32) == B.Regs(0x13707036, 0xa2205f1f, 0x1c31c384, 0xae7813db)
  {
    hide B.Steps, B.Word, B.WordIndex, B.T, B.Rotation;
    B.Schedule2a();
    B.Sines2a();
    Turn(m, 16, B.Regs(0xf56c7cf1, 0xd6819c6a, 0x5aa53f75, 0x374943a7), 0, 0xf61e2562, 5, 0x1c7d7513);
    Turn(m, 17, B.Regs(0x374943a7, 0x1c7d7513, 0xd6819c6a, 0x5aa53f75), 0, 0xc040b340, 9, 0x7bd57a3a);
    Turn(m, 18, B.Regs(0x5aa53f75, 0x7bd57a3a, 0x1c7d7513, 0xd6819c6a), 0, 0x265e5a51, 14, 0xc095f13a);
    Turn(m, 19, B.Regs(0xd6819c6a, 0xc095f13a, 0x7bd57a3a, 0x1c7d7513), 0x80, 0xe9b6c7aa, 20, 0xbd782e17);
    Turn(m, 20, B.Regs(0x1c7d7513, 0xbd782e17, 0xc095f13a, 0x7bd57a3a), 0, 0xd62f105d, 5, 0x3d1e3e6c);
    Turn(m, 21, B.Regs(0x7bd57a3a, 0x3d1e3e6c, 0xbd782e17, 0xc095f13a), 0, 0x02441453, 9, 0x68b7b3e3);
    Turn(m, 22, B.Regs(0xc095f13a, 0x68b7b3e3, 0x3d1e3e6c, 0xbd782e17), 0, 0xd8a1e681, 14, 0xeb41643e);
    Turn(m, 23, B.Regs(0xbd782e17, 0xeb41643e, 0x68b7b3e3, 0x3d1e3e6c), 0, 0xe7d3fbc8, 20, 0xe422531a);
    B.Schedule2b();
    B.Sines2b();
    Turn(m, 24, B.Regs(0x3d1e3e6c, 0xe422531a, 0xeb41643e, 0x68b7b3e3), 0, 0x21e1cde6, 5, 0x306ec122);
    Turn(m, 25, B.Regs(0x68b7b3e3, 0x306ec122, 0xe422531a, 0xeb41643e), 0, 0xc33707d6, 9, 0xd28c77c2);
    Turn(m, 26, B.Regs(0xeb41643e, 0xd28c77c2, 0x306ec122, 0xe422531a), 0, 0xf4d50d87, 14, 0xa3c663da);
    Turn(m, 27, B.Regs(0xe422531a, 0xa3c663da, 0xd28c77c2, 0x306ec122), 0, 0x455a14ed, 20, 0xa0572807);
    Turn(m, 28, B.Regs(0x306ec122, 0xa0572807, 0xa3c663da, 0xd28c77c2), 0, 0xa9e3e905, 5, 0x13707036);
    Turn(m, 29, B.Regs(0xd28c77c2, 0x13707036, 0xa0572807, 0xa3c663da), 0, 0xfcefa3f8, 9, 0xae7813db);
    Turn(m, 30, B.Regs(0xa3c663da, 0xae7813db, 0x13707036, 0xa0572807), 0, 0x676f02d9, 14, 0x1c31c384);
    Turn(m, 31, B.Regs(0xa0572807, 0x1c31c384, 0xae7813db, 0x13707036), 0, 0x8d2a4c8a, 20, 0xa2205f1f);
  }

  lemma Mark3(m: B.Block)
    requires OnlyMark(m) && B.Steps(Md5.IV, m, 32) == B.Regs(0x13707036, 0xa2205f1f, 0x1c31c384, 0xae7813db)
    ensures B.Steps(Md5.IV, m, 48) == B.Regs(0x3f55edfd, 0xca7d2dbd, 0x68d84ea2, 0x22a31f54)
  {
    hide B.Steps, B.Word, B.WordIndex, B.T, B.Rotation;
    B.Schedule3a();
    B.Sines3a();
    Turn(m, 32, B.Regs(0x13707036, 0xa2205f1f, 0x1c31c384, 0xae7813db), 0, 0xfffa3942, 4, 0xdf63eaa1);
    Turn(m, 33, B.Regs(0xae7813db, 0xdf63eaa1, 0xa2205f1f, 0x1c31c384), 0, 0x8771f681, 11, 0xc3689f5b);
    Turn(m, 34, B.Regs(0x1c31c384, 0xc3689f5b, 0xdf63eaa1, 0xa2205f1f), 0, 0x6d9d6122, 16, 0x12f3e755);
    Turn(m, 35, B.Regs(0xa2205f1f, 0x12f3e755, 0xc3689f5b, 0xdf63eaa1), 0, 0xfde5380c, 23, 0x004b6669);
    Turn(m, 36, B.Regs(0xdf63eaa1, 0x004b6669, 0x12f3e755, 0xc3689f5b), 0, 0xa4beea44, 4, 0x5f7a9b2e);
    Turn(m, 37, B.Regs(0xc3689f5b, 0x5f7a9b2e, 0x004b6669, 0x12f3e755), 0, 0x4bdecfa9, 11, 0xabc34e16);
    Turn(m, 38, B.Regs(0x12f3e755, 0xabc34e16, 0x5f7a9b2e, 0x004b6669), 0, 0xf6bb4b60, 16, 0x91ca4cb7);
    Turn(m, 39, B.Regs(0x004b6669, 0x91ca4cb7, 0xabc34e16, 0x5f7a9b2e), 0, 0xbebfbc70, 23, 0xc5dc8c15);
    B.Schedule3b();
    B.Sines3b();
    Turn(m, 40, B.Regs(0x5f7a9b2e, 0xc5dc8c15, 0x91ca4cb7, 0xabc34e16), 0, 0x289b7ec6, 4, 0x4497169d);
    Turn(m, 41, B.Regs(0xabc34e16, 0x4497169d, 0xc5dc8c15, 0x91ca4cb7), 0x80, 0xeaa127fa, 11, 0x76fd93d4);
    Turn(m, 42, B.Regs(0x91ca4cb7, 0x76fd93d4, 0x4497169d, 0xc5dc8c15), 0, 0xd4ef3085, 16, 0xfd95f243);
    Turn(m, 43, B.Regs(0xc5dc8c15, 0xfd95f243, 0x76fd93d4, 0x4497169d), 0, 0x04881d05, 23, 0x0fe32453);
    Turn(m, 44, B.Regs(0x4497169d, 0x0fe32453, 0xfd95f243, 0x76fd93d4), 0, 0xd9d4d039, 4, 0x3f55edfd);
    Turn(m, 45, B.Regs(0x76fd93d4, 0x3f55edfd, 0x0fe32453, 0xfd95f243), 0, 0xe6db99e5, 11, 0x22a31f54);
    Turn(m, 46, B.Regs(0xfd95f243, 0x22a31f54, 0x3f55edfd, 0x0fe32453), 0, 0x1fa27cf8, 16, 0x68d84ea2);
    Turn(m, 47, B.Regs(0x0fe32453, 0x68d84ea2, 0x22a31f54, 0x3f55edfd), 0, 0xc4ac5665, 23, 0xca7d2dbd);
  }

  lemma Mark4(m: B.Block)
    requires OnlyMark(m) && B.Steps(Md5.IV, m, 48) == B.Regs(0x3f55edfd, 0xca7d2dbd, 0x68d84ea2, 0x22a31f54)
    ensures B.Steps(Md5.IV, m, 64) == B.Regs(0x7246fad3, 0x14e45506, 0xff4ea3eb, 0x6e10a476)
  {
    hide B.Steps, B.Word, B.WordIndex, B.T, B.Rotation;
    B.Schedule4a();
    B.Sines4a();
    Turn(m, 48, B.Regs(0x3f55edfd, 0xca7d2dbd, 0x68d84ea2, 0x22a31f54), 0x80, 0xf4292244, 6, 0x93aa2577);
    Turn(m, 49, B.Regs(0x22a31f54, 0x93aa2577, 0xca7d2dbd, 0x68d84ea2), 0, 0x432aff97, 10, 0x1688dc85);
    Turn(m, 50, B.Regs(0x68d84ea2, 0x1688dc85, 0x93aa2577, 0xca7d2dbd), 0, 0xab9423a7, 15, 0xcd85b8cb);
    Turn(m, 51, B.Regs(0xca7d2dbd, 0xcd85b8cb, 0x1688dc85, 0x93aa2577), 0, 0xfc93a039, 21, 0x561e0689);
    Turn(m, 52, B.Regs(0x93aa2577, 0x561e0689, 0xcd85b8cb, 0x1688dc85), 0, 0x655b59c3, 6, 0x5625a114);
    Turn(m, 53, B.Regs(0x1688dc85, 0x5625a114, 0x561e0689, 0xcd85b8cb), 0, 0x8f0ccc92, 10, 0x3450f42b);
    Turn(m, 54, B.Regs(0xcd85b8cb, 0x3450f42b, 0x5625a114, 0x561e0689), 0, 0xffeff47d, 15, 0x392ad0d0);
    Turn(m, 55, B.Regs(0x561e0689, 0x392ad0d0, 0x3450f42b, 0x5625a114), 0, 0x85845dd1, 21, 0x1e77fa61);
    B.Schedule4b();
    B.Sines4b();
    Turn(m, 56, B.Regs(0x5625a114, 0x1e77fa61, 0x392ad0d0, 0x3450f42b), 0, 0x6fa87e4f, 6, 0x474a9c8c);
    Turn(m, 57, B.Regs(0x3450f42b, 0x474a9c8c, 0x1e77fa61, 0x392ad0d0), 0, 0xfe2ce6e0, 10, 0xdfce00bc);
    Turn(m, 58, B.Regs(0x392ad0d0, 0xdfce00bc, 0x474a9c8c, 0x1e77fa61), 0, 0xa3014314, 15, 0x36594b14);
    Turn(m, 59, B.Regs(0x1e77fa61, 0x36594b14, 0xdfce00bc, 0x474a9c8c), 0, 0x4e0811a1, 21, 0x30130182);
    Turn(m, 60, B.Regs(0x474a9c8c, 0x30130182, 0x36594b14, 0xdfce00bc), 0, 0xf7537e82, 6, 0x7246fad3);
    Turn(m, 61, B.Regs(0xdfce00bc, 0x7246fad3, 0x30130182, 0x36594b14), 0, 0xbd3af235, 10, 0x6e10a476);
    Turn(m, 62, B.Regs(0x36594b14, 0x6e10a476, 0x7246fad3, 0x30130182), 0, 0x2ad7d2bb, 15, 0xff4ea3eb);
    Turn(m, 63, B.Regs(0x30130182, 0xff4ea3eb, 0x6e10a476, 0x7246fad3), 0, 0xeb86d391, 21, 0x14e45506);
  }

  lemma MarkCompressed(m: B.Block)
    requires OnlyMark(m)
    ensures B.Compress(Md5.IV, m) == B.Regs(0xd98c1dd4, 0x04b2008f, 0x980980e9, 0x7e42f8ec)
  {
    B.NoSteps(Md5.IV, m);
    hide B.Steps, OnlyMark;
    Mark1(m);
    Mark2(m);
    Mark3(m);
    Mark4(m);
  }

  lemma {:induction false} BytesOfZero(k: nat)
    ensures Md5.ByteOf(0, k) == 0
    decreases k
  {
    if k > 0 { BytesOfZero(k - 1); }
  }

  lemma NoBits()
    ensures Md5.BitCountBytes(0) == Md5.Zeros(8)
  {
    forall k: nat ensures Md5.ByteOf(0, k) == 0 { BytesOfZero(k); }
    hide Md5.ByteOf;
  }

  lemma PaddedEmpty()
    ensures Md5.Pad([]) == [0x80] + Md5.Zeros(63)
  {
    NoBits();
    hide Md5.BitCountBytes;
  }

  lemma PaddedEmptyIsOnlyMark()
    ensures |Md5.Pad([])| == 64 && OnlyMark(Md5.Pad([]))
  {
    PaddedEmpty();
    var m: B.Block := [0x80] + Md5.Zeros(63);
    forall i | 1 <= i < 64 ensures m[i] == 0 {}
    hide Md5.Pad, Md5.Zeros;
    assert LittleEndian(0x80, 0, 0, 0) == 0x80 && LittleEndian(0, 0, 0, 0) == 0;
    hide LittleEndian;
  }

  lemma DigestBytes()
    ensures Md5.Output(B.Regs(0xd98c1dd4, 0x04b2008f, 0x980980e9, 0x7e42f8ec)) ==
            [0xd4, 0x1d, 0x8c, 0xd9, 0x8f, 0x00, 0xb2, 0x04]
                + [0xe9, 0x80, 0x09, 0x98, 0xec, 0xf8, 0x42, 0x7e]
  {}

  lemma OneBlock(r: B.Regs, m: B.Block)
    ensures Md5.Fold(r, m) == B.Compress(r, m)
  {
    hide B.Compress;
    assert m[..64] == m;
    Md5.FoldShort(B.Compress(r, m), m[64..]);
  }

  /** d41d8cd98f00b204e9800998ecf8427e */
  lemma Md5OfNothing()
    ensures Md5.Digest([]) ==
            [0xd4, 0x1d, 0x8c, 0xd9, 0x8f, 0x00, 0xb2, 0x04]
                + [0xe9, 0x80, 0x09, 0x98, 0xec, 0xf8, 0x42, 0x7e]
  {
    PaddedEmptyIsOnlyMark();
    var m := Md5.Pad([]);
    OneBlock(Md5.IV, m);
    MarkCompressed(m);
    DigestBytes();
    hide B.Compress, Md5.Output, Md5.Pad, Md5.Fold, OnlyMark;
  }

  lemma FirstBytesOf800()
    ensures Md5.ByteOf(800, 0) == 0x20 && Md5.ByteOf(800, 1) == 0x03
  {
    assert Md5.ByteOf(800, 1) == Md5.ByteOf(3, 0);
  }

  lemma LaterBytesOf800(k: nat)
    ensures Md5.ByteOf(800, k + 2) == 0
  {
    assert Md5.ByteOf(800, k + 2) == Md5.ByteOf(3, k + 1);
    assert Md5.ByteOf(3, k + 1) == Md5.ByteOf(0, k);
    BytesOfZero(k);
  }

  /** The trailer of a message of 100 bytes: 800 bits, the low-order byte first. */
  lemma TrailerOfHundred()
    ensures Md5.BitCountBytes(100) == [0x20, 0x03, 0, 0, 0, 0, 0, 0]
  {
    hide Md5.ByteOf;
    FirstBytesOf800();
    forall k: nat | k >= 2 ensures Md5.ByteOf(800, k) == 0 { LaterBytesOf800(k - 2); }
    assert 8 * 100 % 0x1_0000_0000_0000_0000 == 800;
  }

  lemma Split(key: seq<bv8>)
    ensures forall i: nat :: i < |key| ==> key[i..] == [key[i]] + key[i + 1..]
    ensures key[0..] == key && key[|key|..] == []
  {}

  // ---------- the CRCs of the nine digits 1 to 9 ----------

  const DIGITS: seq<bv8> := [0x31, 0x32, 0x33, 0x34, 0x35, 0x36, 0x37, 0x38, 0x39]

  lemma Run32(c: bv32, b: bv8, rest: seq<bv8>)
    ensures Crc32.TableRun32(c, [b] + rest) == Crc32.TableRun32(Crc32.TableStep32(c, b), rest)
  {
    hide Crc32.TableStep32;
    assert ([b] + rest)[1..] == rest;
  }

  lemma RunEnds32(c: bv32)
    ensures Crc32.TableRun32(c, []) == c
  {}

  lemma Digits32a()
    ensures Crc32.TableStep32(0xffffffff, 0x31) == 0x7c231048
    ensures Crc32.TableStep32(0x7c231048, 0x32) == 0xb0acbb32
    ensures Crc32.TableStep32(0xb0acbb32, 0x33) == 0x77b79c2d
    ensures Crc32.TableStep32(0x77b79c2d, 0x34) == 0x641c1f5c
    ensures Crc32.TableStep32(0x641c1f5c, 0x35) == 0x340ac5e3
  {}

  lemma Digits32b()
    ensures Crc32.TableStep32(0x340ac5e3, 0x36) == 0xf68d2c9e
    ensures Crc32.TableStep32(0xf68d2c9e, 0x37) == 0xaffc9660
    ensures Crc32.TableStep32(0xaffc9660, 0x38) == 0x651f2550
    ensures Crc32.TableStep32(0x651f2550, 0x39) == 0x340bc6d9
  {}

  /** The check value of CRC-32. */
  lemma Crc32OfDigits()
    ensures Crc32.Crc32Spec(DIGITS) == 0xcbf43926 && Crc32.Fold15(0xcbf43926) == 0x4bf4
  {
    hide Crc32.TableStep32, Crc32.TableRun32, Crc32.BitRun32, Crc32.BitsLowFirst;
    Digits32a();
    Digits32b();
    Split(DIGITS);
    Run32(0xffffffff, DIGITS[0], DIGITS[1..]);
    Run32(0x7c231048, DIGITS[1], DIGITS[2..]);
    Run32(0xb0acbb32, DIGITS[2], DIGITS[3..]);
    Run32(0x77b79c2d, DIGITS[3], DIGITS[4..]);
    Run32(0x641c1f5c, DIGITS[4], DIGITS[5..]);
    Run32(0x340ac5e3, DIGITS[5], DIGITS[6..]);
    Run32(0xf68d2c9e, DIGITS[6], DIGITS[7..]);
    Run32(0xaffc9660, DIGITS[7], DIGITS[8..]);
    Run32(0x651f2550, DIGITS[8], DIGITS[9..]);
    RunEnds32(0x340bc6d9);
    Crc32.TableRunIsBitRun(0xffff_ffff, DIGITS);
    assert Xor(0x340bc6d9, 0xffff_ffff) == 0xcbf43926;
  }

  lemma Run16(c: bv32, b: bv8, rest: seq<bv8>)
    ensures Crc16.TableRun(c, [b] + rest) == Crc16.TableRun(Crc16.TableStep(c, b), rest)
  {
    hide Crc16.TableStep;
    assert ([b] + rest)[1..] == rest;
  }

  lemma RunEnds16(c: bv32)
    ensures Crc16.TableRun(c, []) == c
  {}

  lemma Digits16()
    ensures Crc16.TableStep(0x00000000, 0x31) == 0x00002672
    ensures Crc16.TableStep(0x00002672, 0x32) == 0x002620b5
    ensures Crc16.TableStep(0x002620b5, 0x33) == 0x26209752
    ensures Crc16.TableStep(0x26209752, 0x34) == 0x2097d789
    ensures Crc16.TableStep(0x2097d789, 0x35) == 0x97d7546c
    ensures Crc16.TableStep(0x97d7546c, 0x36) == 0xd75420e4
    ensures Crc16.TableStep(0xd75420e4, 0x37) == 0x542086d6
    ensures Crc16.TableStep(0x542086d6, 0x38) == 0x20869015
    ensures Crc16.TableStep(0x20869015, 0x39) == 0x869031c3
  {}

  /** The check value of the CRC with polynomial 0x1021 that starts at zero. */
  lemma Crc16OfDigits()
    ensures Crc16.Crc16Spec(DIGITS) == 0x31c3
  {
    hide Crc16.TableStep, Crc16.TableRun, Crc16.BitRun, Crc16.BitsHighFirst;
    Digits16();
    Split(DIGITS);
    Run16(0x00000000, DIGITS[0], DIGITS[1..]);
    Run16(0x00002672, DIGITS[1], DIGITS[2..]);
    Run16(0x002620b5, DIGITS[2], DIGITS[3..]);
    Run16(0x26209752, DIGITS[3], DIGITS[4..]);
    Run16(0x2097d789, DIGITS[4], DIGITS[5..]);
    Run16(0x97d7546c, DIGITS[5], DIGITS[6..]);
    Run16(0xd75420e4, DIGITS[6], DIGITS[7..]);
    Run16(0x542086d6, DIGITS[7], DIGITS[8..]);
    Run16(0x20869015, DIGITS[8], DIGITS[9..]);
    RunEnds16(0x869031c3);
    Crc16.LowRunIsBitRun(0, DIGITS);
    assert Crc16.Low(0) == 0 && Crc16.Low(0x869031c3) == 0x31c3;
  }

  // ---------- FNV of "foobar" ----------

  const FOOBAR: seq<bv8> := [0x66, 0x6f, 0x6f, 0x62, 0x61, 0x72]

  lemma Run1a(c: bv64, b: bv8, rest: seq<bv8>)
    ensures Fnv.Fnv1aRun(c, [b] + rest) == Fnv.Fnv1aRun(Fnv.Mul64(Fnv.Xor64(c, Fnv.Sign64(b))), rest)
  {
    hide Fnv.Mul64, Fnv.Xor64, Fnv.Sign64;
    assert ([b] + rest)[1..] == rest;
  }

  lemma RunEnds1a(c: bv64)
    ensures Fnv.Fnv1aRun(c, []) == c
  {}

  lemma Foobar1a()
    ensures Fnv.Mul64(Fnv.Xor64(0xcbf29ce484222325, Fnv.Sign64(0x66))) == 0xaf63db4c8601ead9
    ensures Fnv.Mul64(Fnv.Xor64(0xaf63db4c8601ead9, Fnv.Sign64(0x6f))) == 0x08985907b541d342
    ensures Fnv.Mul64(Fnv.Xor64(0x08985907b541d342, Fnv.Sign64(0x6f))) == 0xdcb27518fed9d577
    ensures Fnv.Mul64(Fnv.Xor64(0xdcb27518fed9d577, Fnv.Sign64(0x62))) == 0xdd120e790c2512af
    ensures Fnv.Mul64(Fnv.Xor64(0xdd120e790c2512af, Fnv.Sign64(0x61))) == 0xcac165afa2fef40a
    ensures Fnv.Mul64(Fnv.Xor64(0xcac165afa2fef40a, Fnv.Sign64(0x72))) == 0x85944171f73967e8
  {}

  /** The 64-bit FNV-1a hash, and the half the source returns. */
  lemma Fnv1aOfFoobar()
    ensures Fnv.Fnv1aRun(Fnv.INIT64, FOOBAR) == 0x85944171f73967e8
    ensures Fnv.Low(Fnv.Fnv1aRun(Fnv.INIT64, FOOBAR)) == 0xf73967e8
  {
    hide Fnv.Mul64, Fnv.Xor64, Fnv.Sign64, Fnv.Fnv1aRun;
    Foobar1a();
    Split(FOOBAR);
    Run1a(0xcbf29ce484222325, FOOBAR[0], FOOBAR[1..]);
    Run1a(0xaf63db4c8601ead9, FOOBAR[1], FOOBAR[2..]);
    Run1a(0x08985907b541d342, FOOBAR[2], FOOBAR[3..]);
    Run1a(0xdcb27518fed9d577, FOOBAR[3], FOOBAR[4..]);
    Run1a(0xdd120e790c2512af, FOOBAR[4], FOOBAR[5..]);
    Run1a(0xcac165afa2fef40a, FOOBAR[5], FOOBAR[6..]);
    RunEnds1a(0x85944171f73967e8);
  }

  lemma Run1(c: bv64, b: bv8, rest: seq<bv8>)
    ensures Fnv.Fnv1Run(c, [b] + rest) == Fnv.Fnv1Run(Fnv.Xor64(Fnv.Mul64(c), Fnv.Sign64(b)), rest)
  {
    hide Fnv.Mul64, Fnv.Xor64, Fnv.Sign64;
    assert ([b] + rest)[1..] == rest;
  }

  lemma RunEnds1(c: bv64)
    ensures Fnv.Fnv1Run(c, []) == c
  {}

  lemma Foobar1()
    ensures Fnv.Xor64(Fnv.Mul64(0xcbf29ce484222325), Fnv.Sign64(0x66)) == 0xaf63bd4c8601b7b9
    ensures Fnv.Xor64(Fnv.Mul64(0xaf63bd4c8601b7b9), Fnv.Sign64(0x6f)) == 0x08326207b4eb2f34
    ensures Fnv.Xor64(Fnv.Mul64(0x08326207b4eb2f34), Fnv.Sign64(0x6f)) == 0xd8cbc7186ba13533
    ensures Fnv.Xor64(Fnv.Mul64(0xd8cbc7186ba13533), Fnv.Sign64(0x62)) == 0x0378817ee2ed65cb
    ensures Fnv.Xor64(Fnv.Mul64(0x0378817ee2ed65cb), Fnv.Sign64(0x61)) == 0xd329d59b9963f790
    ensures Fnv.Xor64(Fnv.Mul64(0xd329d59b9963f790), Fnv.Sign64(0x72)) == 0x340d8765a4dda9c2
  {}

  /** The 64-bit FNV-1 hash, and the half the source returns. */
  lemma Fnv1OfFoobar()
    ensures Fnv.Fnv1Run(Fnv.INIT64, FOOBAR) == 0x340d8765a4dda9c2
    ensures Fnv.Low(Fnv.Fnv1Run(Fnv.INIT64, FOOBAR)) == 0xa4dda9c2
  {
    hide Fnv.Mul64, Fnv.Xor64, Fnv.Sign64, Fnv.Fnv1Run;
    Foobar1();
    Split(FOOBAR);
    Run1(0xcbf29ce484222325, FOOBAR[0], FOOBAR[1..]);
    Run1(0xaf63bd4c8601b7b9, FOOBAR[1], FOOBAR[2..]);
    Run1(0x08326207b4eb2f34, FOOBAR[2], FOOBAR[3..]);
    Run1(0xd8cbc7186ba13533, FOOBAR[3], FOOBAR[4..]);
    Run1(0x0378817ee2ed65cb, FOOBAR[4], FOOBAR[5..]);
    Run1(0xd329d59b9963f790, FOOBAR[5], FOOBAR[6..]);
    RunEnds1(0x340d8765a4dda9c2);
  }

  // ---------- Jenkins of "Four score and seven years ago" ----------

  const FOUR_SCORE: seq<bv8> :=
    [0x46, 0x6f, 0x75, 0x72, 0x20, 0x73, 0x63, 0x6f, 0x72, 0x65, 0x20, 0x61]
        + [0x6e, 0x64, 0x20, 0x73, 0x65, 0x76, 0x65, 0x6e, 0x20, 0x79, 0x65, 0x61]
        + [0x72, 0x73, 0x20, 0x61, 0x67, 0x6f]

  lemma PlainRounds()
    ensures J.AddBlock(J.Regs(0xdeadbf0d, 0xdeadbf0d, 0xdeadbf0d), FOUR_SCORE[..12]) ==
              J.Regs(0x51232e53, 0x4e11322d, 0x3fce247f)
    ensures J.Mix(J.Regs(0x51232e53, 0x4e11322d, 0x3fce247f)) == J.Regs(0xf859ad7a, 0x04bc57ae, 0x40dddd7e)
    ensures J.AddBlock(J.Regs(0xf859ad7a, 0x04bc57ae, 0x40dddd7e), FOUR_SCORE[12..][..12]) ==
              J.Regs(0x6b7a11e8, 0x7321ce13, 0xa243569e)
    ensures J.Mix(J.Regs(0x6b7a11e8, 0x7321ce13, 0xa243569e)) == J.Regs(0x336aded2, 0x059f2642, 0xbd02ebd5)
    ensures J.AddBlock(J.Regs(0x336aded2, 0x059f2642, 0xbd02ebd5), FOUR_SCORE[24..]) ==
              J.Regs(0x948b5244, 0x059f95a9, 0xbd02ebd5)
    ensures J.Final(J.Regs(0x948b5244, 0x059f95a9, 0xbd02ebd5)).c == 0x17770551
  {}

  lemma SeededRounds()
    ensures J.AddBlock(J.Regs(0xdeadbf1a, 0xdeadbf1a, 0xdeadbf1a), FOUR_SCORE[..12]) ==
              J.Regs(0x51232e60, 0x4e11323a, 0x3fce248c)
    ensures J.Mix(J.Regs(0x51232e60, 0x4e11323a, 0x3fce248c)) == J.Regs(0x9b57dab3, 0xbb6a54dd, 0x73c8eecc)
    ensures J.AddBlock(J.Regs(0x9b57dab3, 0xbb6a54dd, 0x73c8eecc), FOUR_SCORE[12..][..12]) ==
              J.Regs(0x0e783f21, 0x29cfcb42, 0xd52e67ec)
    ensures J.Mix(J.Regs(0x0e783f21, 0x29cfcb42, 0xd52e67ec)) == J.Regs(0xa8aefaf8, 0x94c12226, 0xf6f0ea3d)
    ensures J.AddBlock(J.Regs(0xa8aefaf8, 0x94c12226, 0xf6f0ea3d), FOUR_SCORE[24..]) ==
              J.Regs(0x09cf6e6a, 0x94c1918d, 0xf6f0ea3d)
    ensures J.Final(J.Regs(0x09cf6e6a, 0x94c1918d, 0xf6f0ea3d)).c == 0x1ab867b2
  {}

  /** Three blocks by name, the last one finished. */
  lemma ThreeBlocks(s: J.Regs)
    ensures J.Run(s, FOUR_SCORE) == J.AddBlock(J.Mix(J.AddBlock(J.Mix(J.AddBlock(s, FOUR_SCORE[..12])),
                FOUR_SCORE[12..][..12])), FOUR_SCORE[24..])
  {
    hide J.Mix, J.AddBlock;
    var rest := FOUR_SCORE[12..];
    assert |FOUR_SCORE| == 30 && rest[12..] == FOUR_SCORE[24..];
    var t := J.Mix(J.AddBlock(s, FOUR_SCORE[..12]));
    assert J.Run(t, rest) == J.Run(J.Mix(J.AddBlock(t, rest[..12])), rest[12..]);
  }

  /** The value published with the algorithm, for an initial value of zero. */
  lemma JenkinsPublished()
    ensures J.Final(J.Run(J.Regs(0xdeadbf0d, 0xdeadbf0d, 0xdeadbf0d), FOUR_SCORE)).c == 0x17770551
  {
    PlainRounds();
    hide J.Mix, J.AddBlock, J.Final;
    ThreeBlocks(J.Regs(0xdeadbf0d, 0xdeadbf0d, 0xdeadbf0d));
  }

  lemma InitialThirty()
    ensures J.Init(30) == J.Regs(0xdeadbf1a, 0xdeadbf1a, 0xdeadbf1a)
  {
    assert 30 % 0x1_0000_0000 == 30;
  }

  /** With the source's initial value of thirteen. */
  lemma JenkinsOfFourScore()
    ensures J.JenkinsSpec(FOUR_SCORE) == 0x1ab867b2
  {
    SeededRounds();
    InitialThirty();
    hide J.Mix, J.AddBlock, J.Final, J.Init;
    ThreeBlocks(J.Regs(0xdeadbf1a, 0xdeadbf1a, 0xdeadbf1a));
  }

  /** The empty key is not mixed at all. */
  lemma JenkinsOfNothing()
    ensures J.JenkinsSpec([]) == 0xdeadbefc
  {
    hide J.Run, J.Final, J.Mix;
    assert 0 % 0x1_0000_0000 == 0;
    assert (0 as bv32) == 0;
  }

  // ---------- Murmur: two blocks and a tail byte ----------

  lemma GormBlock()
    ensures LittleEndian(0x67, 0x6f, 0x72, 0x6d) == 0x6d726f67
  {}

  lemma MurmurRounds()
    ensures Murmur.MixBlock(0xd41bb66e, 0x6d726f67) == 0xbd9d257e
    ensures Murmur.MixBlock(0xbd9d257e, 0x6d726f67) == 0xc210e92e
    ensures Murmur.MixTail(0xc210e92e, [0x21]) == 0xf2354cbb
    ensures Murmur.Finish(0xf2354cbb) == 0xc8b1b285
  {}

  lemma SeedWordOfNine()
    ensures Murmur.SeedWord(9) == 0xd41bb66e
  {}

  lemma SeedOfNine()
    ensures Murmur.Seed(9) == 0xd41bb66e
  {
    hide Murmur.SeedWord;
    assert 9 % 0x1_0000_0000 == 9;
    assert (9 as bv32) == 9;
    SeedWordOfNine();
  }

  /** The key "gormgorm!". */
  lemma MurmurOfNineBytes()
    ensures Murmur.MurmurSpec([0x67, 0x6f, 0x72, 0x6d, 0x67, 0x6f, 0x72, 0x6d, 0x21]) == 0xc8b1b285
  {
    GormBlock();
    MurmurRounds();
    SeedOfNine();
    hide Murmur.MixBlock, Murmur.MixTail, Murmur.Finish, Murmur.Seed, LittleEndian;
    var s: seq<bv8> := [0x67, 0x6f, 0x72, 0x6d, 0x67, 0x6f, 0x72, 0x6d, 0x21];
    assert s[4..] == [0x67, 0x6f, 0x72, 0x6d, 0x21];
    assert s[4..][4..] == [0x21];
    assert Murmur.Run(0xd41bb66e, s) == Murmur.Run(0xbd9d257e, s[4..]);
    assert Murmur.Run(0xbd9d257e, s[4..]) == Murmur.Run(0xc210e92e, [0x21]) == 0xf2354cbb;
  }
}
