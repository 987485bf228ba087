/** The compression function of MD5: the straight-line code of `body` in
    src/gorm_hash.cc against the description in section 3.4 of RFC 1321. */
module Md5Block {
  import opened Words
  import opened Md5Words

  type Block = b: seq<bv8> | |b| == 64 witness seq(64, _ => 0)

  datatype Regs = Regs(a: bv32, b: bv32, c: bv32, d: bv32)

  // ---------- section 3.4 of RFC 1321 ----------

  type StepNo = i: nat | i < 64
  type WordNo = k: nat | k < 16

  /** The auxiliary function of step i. */
  function Auxiliary(i: StepNo, x: bv32, y: bv32, z: bv32): bv32 {
    if i < 16 then F(x, y, z) else if i < 32 then G(x, y, z) else if i < 48 then H(x, y, z) else I(x, y, z)
  }

  /** The message word of step i. */
  function WordIndex(i: StepNo): (k: WordNo) {
    if i < 16 then i else if i < 32 then (5 * i + 1) % 16 else if i < 48 then (3 * i + 5) % 16 else (7 * i) % 16
  }

  /** The rotation of step i. */
  function Rotation(i: StepNo): (s: Shift) {
    var j := i % 4;
    if i < 16 then (if j == 0 then 7 else if j == 1 then 12 else if j == 2 then 17 else 22)
    else if i < 32 then (if j == 0 then 5 else if j == 1 then 9 else if j == 2 then 14 else 20)
    else if i < 48 then (if j == 0 then 4 else if j == 1 then 11 else if j == 2 then 16 else 23)
    else (if j == 0 then 6 else if j == 1 then 10 else if j == 2 then 15 else 21)
  }

  function Four(j: nat, t0: bv32, t1: bv32, t2: bv32, t3: bv32): bv32 {
    if j == 0 then t0 else if j == 1 then t1 else if j == 2 then t2 else t3
  }

  /** The table T: the integer part of 2^32 times abs(sin(i + 1)). */
  function T(i: StepNo): bv32 {
    var q, j := i / 4, i % 4;
    if q == 0 then Four(j, 0xd76aa478, 0xe8c7b756, 0x242070db, 0xc1bdceee)
    else if q == 1 then Four(j, 0xf57c0faf, 0x4787c62a, 0xa8304613, 0xfd469501)
    else if q == 2 then Four(j, 0x698098d8, 0x8b44f7af, 0xffff5bb1, 0x895cd7be)
    else if q == 3 then Four(j, 0x6b901122, 0xfd987193, 0xa679438e, 0x49b40821)
    else if q == 4 then Four(j, 0xf61e2562, 0xc040b340, 0x265e5a51, 0xe9b6c7aa)
    else if q == 5 then Four(j, 0xd62f105d, 0x02441453, 0xd8a1e681, 0xe7d3fbc8)
    else if q == 6 then Four(j, 0x21e1cde6, 0xc33707d6, 0xf4d50d87, 0x455a14ed)
    else if q == 7 then Four(j, 0xa9e3e905, 0xfcefa3f8, 0x676f02d9, 0x8d2a4c8a)
    else if q == 8 then Four(j, 0xfffa3942, 0x8771f681, 0x6d9d6122, 0xfde5380c)
    else if q == 9 then Four(j, 0xa4beea44, 0x4bdecfa9, 0xf6bb4b60, 0xbebfbc70)
    else if q == 10 then Four(j, 0x289b7ec6, 0xeaa127fa, 0xd4ef3085, 0x04881d05)
    else if q == 11 then Four(j, 0xd9d4d039, 0xe6db99e5, 0x1fa27cf8, 0xc4ac5665)
    else if q == 12 then Four(j, 0xf4292244, 0x432aff97, 0xab9423a7, 0xfc93a039)
    else if q == 13 then Four(j, 0x655b59c3, 0x8f0ccc92, 0xffeff47d, 0x85845dd1)
    else if q == 14 then Four(j, 0x6fa87e4f, 0xfe2ce6e0, 0xa3014314, 0x4e0811a1)
    else Four(j, 0xf7537e82, 0xbd3af235, 0x2ad7d2bb, 0xeb86d391)
  }

  /** Word k of a block, low-order byte first. */
  function Word(m: Block, k: WordNo): bv32 {
    LittleEndian(m[4 * k], m[4 * k + 1], m[4 * k + 2], m[4 * k + 3])
  }

  /** a = b + ((a + f + x + t) <<< s) */
  function Operation(a: bv32, b: bv32, f: bv32, x: bv32, t: bv32, s: Shift): bv32 {
    Plus(b, RotateLeft(Plus(Plus(Plus(a, f), x), t), s))
  }

  /** Step i; the registers then change roles for the next step. */
  function Step(r: Regs, m: Block, i: StepNo): Regs {
    Regs(r.d, Operation(r.a, r.b, Auxiliary(i, r.b, r.c, r.d), Word(m, WordIndex(i)), T(i), Rotation(i)), r.b, r.c)
  }

  function Steps(r: Regs, m: Block, n: nat): Regs
    requires n <= 64
  {
    if n == 0 then r else Step(Steps(r, m, n - 1), m, n - 1)
  }

  /** One block: the 64 steps, then each register is incremented by its value before them. */
  function Compress(r: Regs, m: Block): Regs {
    var q := Steps(r, m, 64);
    Regs(Plus(q.a, r.a), Plus(q.b, r.b), Plus(q.c, r.c), Plus(q.d, r.d))
  }

  // ---------- the source's macros ----------

  /** F and G as the source computes them, without an and-not. */
  function FastF(x: bv32, y: bv32, z: bv32): bv32 { z ^ (x & (y ^ z)) }
  function FastG(x: bv32, y: bv32, z: bv32): bv32 { y ^ (z & (x ^ y)) }

  lemma FastFWord(x: bv32, y: bv32, z: bv32)
    ensures Same(FastF(x, y, z), z ^ (x & (y ^ z))) && Same(F(x, y, z), (x & y) | (!x & z))
  {}

  lemma FastGWord(x: bv32, y: bv32, z: bv32)
    ensures Same(FastG(x, y, z), y ^ (z & (x ^ y))) && Same(G(x, y, z), (x & z) | (y & !z))
  {}

  lemma SelectF(x: bv32, y: bv32, z: bv32)
    ensures Same(z ^ (x & (y ^ z)), (x & y) | (!x & z))
  {}

  lemma SelectG(x: bv32, y: bv32, z: bv32)
    ensures Same(y ^ (z & (x ^ y)), (x & z) | (y & !z))
  {}

  lemma FastFIsF(x: bv32, y: bv32, z: bv32)
    ensures FastF(x, y, z) == F(x, y, z)
  {
    hide FastF, F;
    FastFWord(x, y, z);
    SelectF(x, y, z);
  }

  lemma FastGIsG(x: bv32, y: bv32, z: bv32)
    ensures FastG(x, y, z) == G(x, y, z)
  {
    hide FastG, G;
    FastGWord(x, y, z);
    SelectG(x, y, z);
  }

  /** STEP: a += f + x + t; rotate a; a += b. */
  function Macro(a: bv32, b: bv32, f: bv32, x: bv32, t: bv32, s: Shift): bv32 {
    Plus(RotateLeft(Plus(a, Plus(Plus(f, x), t)), s), b)
  }

  lemma MacroIsOperation(a: bv32, b: bv32, f: bv32, x: bv32, t: bv32, s: Shift)
    ensures Macro(a, b, f, x, t, s) == Operation(a, b, f, x, t, s)
  {
    hide Plus, RotateLeft;
    PlusAssociates(a, Plus(f, x), t);
    PlusAssociates(a, f, x);
    PlusCommutes(b, RotateLeft(Plus(Plus(Plus(a, f), x), t), s));
  }

  /** One line of `body` is one step. */
  lemma Line(r: Regs, m: Block, i: StepNo, q: Regs)
    requires Steps(r, m, i) == q
    ensures var f := if i < 16 then FastF(q.b, q.c, q.d) else if i < 32 then FastG(q.b, q.c, q.d)
                     else if i < 48 then H(q.b, q.c, q.d) else I(q.b, q.c, q.d);
            Steps(r, m, i + 1) == Regs(q.d, Macro(q.a, q.b, f, Word(m, WordIndex(i)), T(i), Rotation(i)), q.b, q.c)
  {
    hide Plus, RotateLeft, F, G, H, I, FastF, FastG, T, Rotation, WordIndex, Word, Macro, Operation;
    FastFIsF(q.b, q.c, q.d);
    FastGIsG(q.b, q.c, q.d);
    MacroIsOperation(q.a, q.b, Auxiliary(i, q.b, q.c, q.d), Word(m, WordIndex(i)), T(i), Rotation(i));
  }

  lemma Schedule1a()
    ensures WordIndex(0) == 0 && Rotation(0) == 7
    ensures WordIndex(1) == 1 && Rotation(1) == 12
    ensures WordIndex(2) == 2 && Rotation(2) == 17
    ensures WordIndex(3) == 3 && Rotation(3) == 22
    ensures WordIndex(4) == 4 && Rotation(4) == 7
    ensures WordIndex(5) == 5 && Rotation(5) == 12
    ensures WordIndex(6) == 6 && Rotation(6) == 17
    ensures WordIndex(7) == 7 && Rotation(7) == 22
  {}

  lemma Sines1a()
    ensures T(0) == 0xd76aa478
    ensures T(1) == 0xe8c7b756
    ensures T(2) == 0x242070db
    ensures T(3) == 0xc1bdceee
    ensures T(4) == 0xf57c0faf
    ensures T(5) == 0x4787c62a
    ensures T(6) == 0xa8304613
    ensures T(7) == 0xfd469501
  {}

  method Round1a(r0: Regs, m: Block, ghost r: Regs) returns (r1: Regs)
    requires r0 == Steps(r, m, 0)
    ensures r1 == Steps(r, m, 8)
  {
    hide F, G, H, I, FastF, FastG, Word, Macro, Steps, T, WordIndex, Rotation;
    Schedule1a();
    Sines1a();
    var Regs(a, b, c, d) := r0;
    Line(r, m, 0, Regs(a, b, c, d));
    a := Macro(a, b, FastF(b, c, d), Word(m, 0), 0xd76aa478, 7);
    Line(r, m, 1, Regs(d, a, b, c));
    d := Macro(d, a, FastF(a, b, c), Word(m, 1), 0xe8c7b756, 12);
    Line(r, m, 2, Regs(c, d, a, b));
    c := Macro(c, d, FastF(d, a, b), Word(m, 2), 0x242070db, 17);
    Line(r, m, 3, Regs(b, c, d, a));
    b := Macro(b, c, FastF(c, d, a), Word(m, 3), 0xc1bdceee, 22);
    Line(r, m, 4, Regs(a, b, c, d));
    a := Macro(a, b, FastF(b, c, d), Word(m, 4), 0xf57c0faf, 7);
    Line(r, m, 5, Regs(d, a, b, c));
    d := Macro(d, a, FastF(a, b, c), Word(m, 5), 0x4787c62a, 12);
    Line(r, m, 6, Regs(c, d, a, b));
    c := Macro(c, d, FastF(d, a, b), Word(m, 6), 0xa8304613, 17);
    Line(r, m, 7, Regs(b, c, d, a));
    b := Macro(b, c, FastF(c, d, a), Word(m, 7), 0xfd469501, 22);
    return Regs(a, b, c, d);
  }

  lemma Schedule1b()
    ensures WordIndex(8) == 8 && Rotation(8) == 7
    ensures WordIndex(9) == 9 && Rotation(9) == 12
    ensures WordIndex(10) == 10 && Rotation(10) == 17
    ensures WordIndex(11) == 11 && Rotation(11) == 22
    ensures WordIndex(12) == 12 && Rotation(12) == 7
    ensures WordIndex(13) == 13 && Rotation(13) == 12
    ensures WordIndex(14) == 14 && Rotation(14) == 17
    ensures WordIndex(15) == 15 && Rotation(15) == 22
  {}

  lemma Sines1b()
    ensures T(8) == 0x698098d8
    ensures T(9) == 0x8b44f7af
    ensures T(10) == 0xffff5bb1
    ensures T(11) == 0x895cd7be
    ensures T(12) == 0x6b901122
    ensures T(13) == 0xfd987193
    ensures T(14) == 0xa679438e
    ensures T(15) == 0x49b40821
  {}

  method Round1b(r0: Regs, m: Block, ghost r: Regs) returns (r1: Regs)
    requires r0 == Steps(r, m, 8)
    ensures r1 == Steps(r, m, 16)
  {
    hide F, G, H, I, FastF, FastG, Word, Macro, Steps, T, WordIndex, Rotation;
    Schedule1b();
    Sines1b();
    var Regs(a, b, c, d) := r0;
    Line(r, m, 8, Regs(a, b, c, d));
    a := Macro(a, b, FastF(b, c, d), Word(m, 8), 0x698098d8, 7);
    Line(r, m, 9, Regs(d, a, b, c));
    d := Macro(d, a, FastF(a, b, c), Word(m, 9), 0x8b44f7af, 12);
    Line(r, m, 10, Regs(c, d, a, b));
    c := Macro(c, d, FastF(d, a, b), Word(m, 10), 0xffff5bb1, 17);
    Line(r, m, 11, Regs(b, c, d, a));
    b := Macro(b, c, FastF(c, d, a), Word(m, 11), 0x895cd7be, 22);
    Line(r, m, 12, Regs(a, b, c, d));
    a := Macro(a, b, FastF(b, c, d), Word(m, 12), 0x6b901122, 7);
    Line(r, m, 13, Regs(d, a, b, c));
    d := Macro(d, a, FastF(a, b, c), Word(m, 13), 0xfd987193, 12);
    Line(r, m, 14, Regs(c, d, a, b));
    c := Macro(c, d, FastF(d, a, b), Word(m, 14), 0xa679438e, 17);
    Line(r, m, 15, Regs(b, c, d, a));
    b := Macro(b, c, FastF(c, d, a), Word(m, 15), 0x49b40821, 22);
    return Regs(a, b, c, d);
  }

  lemma Schedule2a()
    ensures WordIndex(16) == 1 && Rotation(16) == 5
    ensures WordIndex(17) == 6 && Rotation(17) == 9
    ensures WordIndex(18) == 11 && Rotation(18) == 14
    ensures WordIndex(19) == 0 && Rotation(19) == 20
    ensures WordIndex(20) == 5 && Rotation(20) == 5
    ensures WordIndex(21) == 10 && Rotation(21) == 9
    ensures WordIndex(22) == 15 && Rotation(22) == 14
    ensures WordIndex(23) == 4 && Rotation(23) == 20
  {}

  lemma Sines2a()
    ensures T(16) == 0xf61e2562
    ensures T(17) == 0xc040b340
    ensures T(18) == 0x265e5a51
    ensures T(19) == 0xe9b6c7aa
    ensures T(20) == 0xd62f105d
    ensures T(21) == 0x02441453
    ensures T(22) == 0xd8a1e681
    ensures T(23) == 0xe7d3fbc8
  {}

  method Round2a(r0: Regs, m: Block, ghost r: Regs) returns (r1: Regs)
    requires r0 == Steps(r, m, 16)
    ensures r1 == Steps(r, m, 24)
  {
    hide F, G, H, I, FastF, FastG, Word, Macro, Steps, T, WordIndex, Rotation;
    Schedule2a();
    Sines2a();
    var Regs(a, b, c, d) := r0;
    Line(r, m, 16, Regs(a, b, c, d));
    a := Macro(a, b, FastG(b, c, d), Word(m, 1), 0xf61e2562, 5);
    Line(r, m, 17, Regs(d, a, b, c));
    d := Macro(d, a, FastG(a, b, c), Word(m, 6), 0xc040b340, 9);
    Line(r, m, 18, Regs(c, d, a, b));
    c := Macro(c, d, FastG(d, a, b), Word(m, 11), 0x265e5a51, 14);
    Line(r, m, 19, Regs(b, c, d, a));
    b := Macro(b, c, FastG(c, d, a), Word(m, 0), 0xe9b6c7aa, 20);
    Line(r, m, 20, Regs(a, b, c, d));
    a := Macro(a, b, FastG(b, c, d), Word(m, 5), 0xd62f105d, 5);
    Line(r, m, 21, Regs(d, a, b, c));
    d := Macro(d, a, FastG(a, b, c), Word(m, 10), 0x02441453, 9);
    Line(r, m, 22, Regs(c, d, a, b));
    c := Macro(c, d, FastG(d, a, b), Word(m, 15), 0xd8a1e681, 14);
    Line(r, m, 23, Regs(b, c, d, a));
    b := Macro(b, c, FastG(c, d, a), Word(m, 4), 0xe7d3fbc8, 20);
    return Regs(a, b, c, d);
  }

  lemma Schedule2b()
    ensures WordIndex(24) == 9 && Rotation(24) == 5
    ensures WordIndex(25) == 14 && Rotation(25) == 9
    ensures WordIndex(26) == 3 && Rotation(26) == 14
    ensures WordIndex(27) == 8 && Rotation(27) == 20
    ensures WordIndex(28) == 13 && Rotation(28) == 5
    ensures WordIndex(29) == 2 && Rotation(29) == 9
    ensures WordIndex(30) == 7 && Rotation(30) == 14
    ensures WordIndex(31) == 12 && Rotation(31) == 20
  {}

  lemma Sines2b()
    ensures T(24) == 0x21e1cde6
    ensures T(25) == 0xc33707d6
    ensures T(26) == 0xf4d50d87
    ensures T(27) == 0x455a14ed
    ensures T(28) == 0xa9e3e905
    ensures T(29) == 0xfcefa3f8
    ensures T(30) == 0x676f02d9
    ensures T(31) == 0x8d2a4c8a
  {}

  method Round2b(r0: Regs, m: Block, ghost r: Regs) returns (r1: Regs)
    requires r0 == Steps(r, m, 24)
    ensures r1 == Steps(r, m, 32)
  {
    hide F, G, H, I, FastF, FastG, Word, Macro, Steps, T, WordIndex, Rotation;
    Schedule2b();
    Sines2b();
    var Regs(a, b, c, d) := r0;
    Line(r, m, 24, Regs(a, b, c, d));
    a := Macro(a, b, FastG(b, c, d), Word(m, 9), 0x21e1cde6, 5);
    Line(r, m, 25, Regs(d, a, b, c));
    d := Macro(d, a, FastG(a, b, c), Word(m, 14), 0xc33707d6, 9);
    Line(r, m, 26, Regs(c, d, a, b));
    c := Macro(c, d, FastG(d, a, b), Word(m, 3), 0xf4d50d87, 14);
    Line(r, m, 27, Regs(b, c, d, a));
    b := Macro(b, c, FastG(c, d, a), Word(m, 8), 0x455a14ed, 20);
    Line(r, m, 28, Regs(a, b, c, d));
    a := Macro(a, b, FastG(b, c, d), Word(m, 13), 0xa9e3e905, 5);
    Line(r, m, 29, Regs(d, a, b, c));
    d := Macro(d, a, FastG(a, b, c), Word(m, 2), 0xfcefa3f8, 9);
    Line(r, m, 30, Regs(c, d, a, b));
    c := Macro(c, d, FastG(d, a, b), Word(m, 7), 0x676f02d9, 14);
    Line(r, m, 31, Regs(b, c, d, a));
    b := Macro(b, c, FastG(c, d, a), Word(m, 12), 0x8d2a4c8a, 20);
    return Regs(a, b, c, d);
  }

  lemma Schedule3a()
    ensures WordIndex(32) == 5 && Rotation(32) == 4
    ensures WordIndex(33) == 8 && Rotation(33) == 11
    ensures WordIndex(34) == 11 && Rotation(34) == 16
    ensures WordIndex(35) == 14 && Rotation(35) == 23
    ensures WordIndex(36) == 1 && Rotation(36) == 4
    ensures WordIndex(37) == 4 && Rotation(37) == 11
    ensures WordIndex(38) == 7 && Rotation(38) == 16
    ensures WordIndex(39) == 10 && Rotation(39) == 23
  {}

  lemma Sines3a()
    ensures T(32) == 0xfffa3942
    ensures T(33) == 0x8771f681
    ensures T(34) == 0x6d9d6122
    ensures T(35) == 0xfde5380c
    ensures T(36) == 0xa4beea44
    ensures T(37) == 0x4bdecfa9
    ensures T(38) == 0xf6bb4b60
    ensures T(39) == 0xbebfbc70
  {}

  method Round3a(r0: Regs, m: Block, ghost r: Regs) returns (r1: Regs)
    requires r0 == Steps(r, m, 32)
    ensures r1 == Steps(r, m, 40)
  {
    hide F, G, H, I, FastF, FastG, Word, Macro, Steps, T, WordIndex, Rotation;
    Schedule3a();
    Sines3a();
    var Regs(a, b, c, d) := r0;
    Line(r, m, 32, Regs(a, b, c, d));
    a := Macro(a, b, H(b, c, d), Word(m, 5), 0xfffa3942, 4);
    Line(r, m, 33, Regs(d, a, b, c));
    d := Macro(d, a, H(a, b, c), Word(m, 8), 0x8771f681, 11);
    Line(r, m, 34, Regs(c, d, a, b));
    c := Macro(c, d, H(d, a, b), Word(m, 11), 0x6d9d6122, 16);
    Line(r, m, 35, Regs(b, c, d, a));
    b := Macro(b, c, H(c, d, a), Word(m, 14), 0xfde5380c, 23);
    Line(r, m, 36, Regs(a, b, c, d));
    a := Macro(a, b, H(b, c, d), Word(m, 1), 0xa4beea44, 4);
    Line(r, m, 37, Regs(d, a, b, c));
    d := Macro(d, a, H(a, b, c), Word(m, 4), 0x4bdecfa9, 11);
    Line(r, m, 38, Regs(c, d, a, b));
    c := Macro(c, d, H(d, a, b), Word(m, 7), 0xf6bb4b60, 16);
    Line(r, m, 39, Regs(b, c, d, a));
    b := Macro(b, c, H(c, d, a), Word(m, 10), 0xbebfbc70, 23);
    return Regs(a, b, c, d);
  }

  lemma Schedule3b()
    ensures WordIndex(40) == 13 && Rotation(40) == 4
    ensures WordIndex(41) == 0 && Rotation(41) == 11
    ensures WordIndex(42) == 3 && Rotation(42) == 16
    ensures WordIndex(43) == 6 && Rotation(43) == 23
    ensures WordIndex(44) == 9 && Rotation(44) == 4
    ensures WordIndex(45) == 12 && Rotation(45) == 11
    ensures WordIndex(46) == 15 && Rotation(46) == 16
    ensures WordIndex(47) == 2 && Rotation(47) == 23
  {}

  lemma Sines3b()
    ensures T(40) == 0x289b7ec6
    ensures T(41) == 0xeaa127fa
    ensures T(42) == 0xd4ef3085
    ensures T(43) == 0x04881d05
    ensures T(44) == 0xd9d4d039
    ensures T(45) == 0xe6db99e5
    ensures T(46) == 0x1fa27cf8
    ensures T(47) == 0xc4ac5665
  {}

  method Round3b(r0: Regs, m: Block, ghost r: Regs) returns (r1: Regs)
    requires r0 == Steps(r, m, 40)
    ensures r1 == Steps(r, m, 48)
  {
    hide F, G, H, I, FastF, FastG, Word, Macro, Steps, T, WordIndex, Rotation;
    Schedule3b();
    Sines3b();
    var Regs(a, b, c, d) := r0;
    Line(r, m, 40, Regs(a, b, c, d));
    a := Macro(a, b, H(b, c, d), Word(m, 13), 0x289b7ec6, 4);
    Line(r, m, 41, Regs(d, a, b, c));
    d := Macro(d, a, H(a, b, c), Word(m, 0), 0xeaa127fa, 11);
    Line(r, m, 42, Regs(c, d, a, b));
    c := Macro(c, d, H(d, a, b), Word(m, 3), 0xd4ef3085, 16);
    Line(r, m, 43, Regs(b, c, d, a));
    b := Macro(b, c, H(c, d, a), Word(m, 6), 0x04881d05, 23);
    Line(r, m, 44, Regs(a, b, c, d));
    a := Macro(a, b, H(b, c, d), Word(m, 9), 0xd9d4d039, 4);
    Line(r, m, 45, Regs(d, a, b, c));
    d := Macro(d, a, H(a, b, c), Word(m, 12), 0xe6db99e5, 11);
    Line(r, m, 46, Regs(c, d, a, b));
    c := Macro(c, d, H(d, a, b), Word(m, 15), 0x1fa27cf8, 16);
    Line(r, m, 47, Regs(b, c, d, a));
    b := Macro(b, c, H(c, d, a), Word(m, 2), 0xc4ac5665, 23);
    return Regs(a, b, c, d);
  }

  lemma Schedule4a()
    ensures WordIndex(48) == 0 && Rotation(48) == 6
    ensures WordIndex(49) == 7 && Rotation(49) == 10
    ensures WordIndex(50) == 14 && Rotation(50) == 15
    ensures WordIndex(51) == 5 && Rotation(51) == 21
    ensures WordIndex(52) == 12 && Rotation(52) == 6
    ensures WordIndex(53) == 3 && Rotation(53) == 10
    ensures WordIndex(54) == 10 && Rotation(54) == 15
    ensures WordIndex(55) == 1 && Rotation(55) == 21
  {}

  lemma Sines4a()
    ensures T(48) == 0xf4292244
    ensures T(49) == 0x432aff97
    ensures T(50) == 0xab9423a7
    ensures T(51) == 0xfc93a039
    ensures T(52) == 0x655b59c3
    ensures T(53) == 0x8f0ccc92
    ensures T(54) == 0xffeff47d
    ensures T(55) == 0x85845dd1
  {}

  method Round4a(r0: Regs, m: Block, ghost r: Regs) returns (r1: Regs)
    requires r0 == Steps(r, m, 48)
    ensures r1 == Steps(r, m, 56)
  {
    hide F, G, H, I, FastF, FastG, Word, Macro, Steps, T, WordIndex, Rotation;
    Schedule4a();
    Sines4a();
    var Regs(a, b, c, d) := r0;
    Line(r, m, 48, Regs(a, b, c, d));
    a := Macro(a, b, I(b, c, d), Word(m, 0), 0xf4292244, 6);
    Line(r, m, 49, Regs(d, a, b, c));
    d := Macro(d, a, I(a, b, c), Word(m, 7), 0x432aff97, 10);
    Line(r, m, 50, Regs(c, d, a, b));
    c := Macro(c, d, I(d, a, b), Word(m, 14), 0xab9423a7, 15);
    Line(r, m, 51, Regs(b, c, d, a));
    b := Macro(b, c, I(c, d, a), Word(m, 5), 0xfc93a039, 21);
    Line(r, m, 52, Regs(a, b, c, d));
    a := Macro(a, b, I(b, c, d), Word(m, 12), 0x655b59c3, 6);
    Line(r, m, 53, Regs(d, a, b, c));
    d := Macro(d, a, I(a, b, c), Word(m, 3), 0x8f0ccc92, 10);
    Line(r, m, 54, Regs(c, d, a, b));
    c := Macro(c, d, I(d, a, b), Word(m, 10), 0xffeff47d, 15);
    Line(r, m, 55, Regs(b, c, d, a));
    b := Macro(b, c, I(c, d, a), Word(m, 1), 0x85845dd1, 21);
    return Regs(a, b, c, d);
  }

  lemma Schedule4b()
    ensures WordIndex(56) == 8 && Rotation(56) == 6
    ensures WordIndex(57) == 15 && Rotation(57) == 10
    ensures WordIndex(58) == 6 && Rotation(58) == 15
    ensures WordIndex(59) == 13 && Rotation(59) == 21
    ensures WordIndex(60) == 4 && Rotation(60) == 6
    ensures WordIndex(61) == 11 && Rotation(61) == 10
    ensures WordIndex(62) == 2 && Rotation(62) == 15
    ensures WordIndex(63) == 9 && Rotation(63) == 21
  {}

  lemma Sines4b()
    ensures T(56) == 0x6fa87e4f
    ensures T(57) == 0xfe2ce6e0
    ensures T(58) == 0xa3014314
    ensures T(59) == 0x4e0811a1
    ensures T(60) == 0xf7537e82
    ensures T(61) == 0xbd3af235
    ensures T(62) == 0x2ad7d2bb
    ensures T(63) == 0xeb86d391
  {}

  method Round4b(r0: Regs, m: Block, ghost r: Regs) returns (r1: Regs)
    requires r0 == Steps(r, m, 56)
    ensures r1 == Steps(r, m, 64)
  {
    hide F, G, H, I, FastF, FastG, Word, Macro, Steps, T, WordIndex, Rotation;
    Schedule4b();
    Sines4b();
    var Regs(a, b, c, d) := r0;
    Line(r, m, 56, Regs(a, b, c, d));
    a := Macro(a, b, I(b, c, d), Word(m, 8), 0x6fa87e4f, 6);
    Line(r, m, 57, Regs(d, a, b, c));
    d := Macro(d, a, I(a, b, c), Word(m, 15), 0xfe2ce6e0, 10);
    Line(r, m, 58, Regs(c, d, a, b));
    c := Macro(c, d, I(d, a, b), Word(m, 6), 0xa3014314, 15);
    Line(r, m, 59, Regs(b, c, d, a));
    b := Macro(b, c, I(c, d, a), Word(m, 13), 0x4e0811a1, 21);
    Line(r, m, 60, Regs(a, b, c, d));
    a := Macro(a, b, I(b, c, d), Word(m, 4), 0xf7537e82, 6);
    Line(r, m, 61, Regs(d, a, b, c));
    d := Macro(d, a, I(a, b, c), Word(m, 11), 0xbd3af235, 10);
    Line(r, m, 62, Regs(c, d, a, b));
    c := Macro(c, d, I(d, a, b), Word(m, 2), 0x2ad7d2bb, 15);
    Line(r, m, 63, Regs(b, c, d, a));
    b := Macro(b, c, I(c, d, a), Word(m, 9), 0xeb86d391, 21);
    return Regs(a, b, c, d);
  }

  /** One pass of the loop of `body`. */
  method CompressBlock(r: Regs, m: Block) returns (r1: Regs)
    ensures r1 == Compress(r, m)
  {
    hide Steps, Plus;
    assert r == Steps(r, m, 0) by { NoSteps(r, m); }
    var q := Round1a(r, m, r);
    q := Round1b(q, m, r);
    q := Round2a(q, m, r);
    q := Round2b(q, m, r);
    q := Round3a(q, m, r);
    q := Round3b(q, m, r);
    q := Round4a(q, m, r);
    q := Round4b(q, m, r);
    return Regs(Plus(q.a, r.a), Plus(q.b, r.b), Plus(q.c, r.c), Plus(q.d, r.d));
  }

  lemma NoSteps(r: Regs, m: Block)
    ensures Steps(r, m, 0) == r
  {}
}
