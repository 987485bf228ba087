/** The CRC-32 functions of src/gorm_hash.cc against the bit-serial definition. */
module Crc32 {
  import opened CrcTables
  import opened Words

  type Key = seq<bv8>

  // Word operations under a name, so that proofs can treat them as symbols.
  function Half(x: bv32): bv32 { x >> 1 }
  predicate Odd(x: bv32) { x & 1 != 0 }
  function LowByte(x: bv32): bv8 { (x & 0xff) as bv8 }
  function Word(b: bv8): bv32 { b as bv32 }
  function HighPart(x: bv32): bv32 { x & 0xffff_ff00 }
  function Drop8(x: bv32): bv32 { x >> 8 }

  // ---------- bit-serial definitions ----------

  /** The bits of a key in the order a reflected CRC consumes them: low bit of each byte first. */
  function BitsLowFirst(key: Key): (bits: seq<bool>)
    ensures |bits| == 8 * |key|
  {
    if key == [] then [] else ByteLowFirst(key[0]) + BitsLowFirst(key[1..])
  }

  function ByteLowFirst(b: bv8): (bits: seq<bool>)
    ensures |bits| == 8
  {
    WordBits(Word(b), 8)
  }

  /** The n lowest bits of a word, lowest first. */
  function WordBits(y: bv32, n: nat): (bits: seq<bool>)
    ensures |bits| == n
    decreases n
  {
    if n == 0 then [] else [Odd(y)] + WordBits(Half(y), n - 1)
  }

  /** One bit through the reflected CRC-32 register with polynomial 0xedb88320. */
  function BitStep32(c: bv32, bit: bool): bv32 {
    if Odd(c) != bit then Xor(Half(c), 0xedb88320) else Half(c)
  }

  function BitRun32(c: bv32, bits: seq<bool>): bv32
    decreases |bits|
  {
    if bits == [] then c else BitRun32(BitStep32(c, bits[0]), bits[1..])
  }

  /** CRC-32 as section 8 of RFC 1952 defines it. */
  function Crc32Spec(key: Key): bv32 {
    Xor(BitRun32(0xffff_ffff, BitsLowFirst(key)), 0xffff_ffff)
  }

  // ---------- the table-driven byte steps of the source ----------

  function TableStep32(c: bv32, b: bv8): bv32 {
    Xor(Drop8(c), Crc32Tab(LowByte(Xor(c, Word(b)))))
  }

  function TableRun32(c: bv32, key: Key): bv32
    decreases |key|
  {
    if key == [] then c else TableRun32(TableStep32(c, key[0]), key[1..])
  }

  // ---------- the CRC-32 register without input ----------

  function Shift(c: bv32): bv32 {
    BitStep32(c, false)
  }

  function Shifts(c: bv32, n: nat): bv32
    decreases n
  {
    if n == 0 then c else Shifts(Shift(c), n - 1)
  }

  function Down(y: bv32, n: nat): bv32
    decreases n
  {
    if n == 0 then y else Down(Half(y), n - 1)
  }

  predicate LowZero(y: bv32, n: nat)
    decreases n
  {
    n == 0 || (!Odd(y) && LowZero(Half(y), n - 1))
  }

  lemma ShiftInjective(x: bv32, y: bv32)
    ensures Shift(x) == Shift(y) ==> x == y
  {}

  lemma {:induction false} ShiftsInjective(x: bv32, y: bv32, n: nat)
    ensures Shifts(x, n) == Shifts(y, n) ==> x == y
    decreases n
  {
    hide Shift;
    if n > 0 {
      ShiftsInjective(Shift(x), Shift(y), n - 1);
      ShiftInjective(x, y);
    }
  }

  lemma XorLaws(x: bv32, y: bv32, z: bv32)
    ensures Xor(x, y) == Xor(y, x) && Xor(Xor(x, y), z) == Xor(x, Xor(y, z))
  {}

  lemma XorInverse(x: bv32, y: bv32)
    ensures Xor(Xor(x, y), y) == x && Xor(x, 0) == x
  {}

  lemma HalfOfXor(x: bv32, y: bv32)
    ensures Half(Xor(x, y)) == Xor(Half(x), Half(y))
  {}

  lemma OddOfXor(x: bv32, y: bv32)
    ensures Odd(Xor(x, y)) == (Odd(x) != Odd(y))
  {}

  lemma ShiftLinear(x: bv32, y: bv32)
    requires !Odd(y)
    ensures Shift(Xor(x, y)) == Xor(Shift(x), Half(y))
  {
    hide Xor, Half, Odd;
    HalfOfXor(x, y);
    OddOfXor(x, y);
    XorLaws(Half(x), Half(y), 0xedb88320);
    XorLaws(Half(x), 0xedb88320, Half(y));
    XorLaws(Half(y), 0xedb88320, 0);
  }

  /** Bits that never reach the low end only move down. */
  lemma {:induction false} ShiftsLinear(x: bv32, y: bv32, n: nat)
    requires LowZero(y, n)
    ensures Shifts(Xor(x, y), n) == Xor(Shifts(x, n), Down(y, n))
    decreases n
  {
    hide Shift, Xor, Half, Odd;
    if n > 0 {
      ShiftLinear(x, y);
      ShiftsLinear(Shift(x), Half(y), n - 1);
    }
  }

  lemma {:induction false} ShiftsCompose(c: bv32, m: nat, n: nat)
    ensures Shifts(Shifts(c, m), n) == Shifts(c, m + n)
    decreases m
  {
    hide Shift;
    if m > 0 {
      ShiftsCompose(Shift(c), m - 1, n);
    }
  }


  lemma LowByteClear(y: bv32, y4: bv32)
    requires LowByte(y) == 0 && y4 == Half(Half(Half(Half(y))))
    ensures !Odd(y) && !Odd(Half(y)) && !Odd(Half(Half(y))) && !Odd(Half(Half(Half(y))))
    ensures !Odd(y4) && !Odd(Half(y4)) && !Odd(Half(Half(y4))) && !Odd(Half(Half(Half(y4))))
    ensures Half(Half(Half(Half(y4)))) == Drop8(y)
  {}

  lemma Down4(y: bv32, n: nat)
    requires !Odd(y) && !Odd(Half(y)) && !Odd(Half(Half(y))) && !Odd(Half(Half(Half(y))))
    requires LowZero(Half(Half(Half(Half(y)))), n)
    ensures LowZero(y, n + 4) && Down(y, n + 4) == Down(Half(Half(Half(Half(y)))), n)
  {
    hide Odd, Half;
    var y1, y2 := Half(y), Half(Half(y));
    assert LowZero(y2, n + 2) && Down(y2, n + 2) == Down(Half(Half(y2)), n) by {
      assert LowZero(Half(y2), n + 1) && Down(Half(y2), n + 1) == Down(Half(Half(y2)), n);
    }
    assert LowZero(y1, n + 3) && Down(y1, n + 3) == Down(y2, n + 2);
  }

  lemma Down8(y: bv32)
    requires LowByte(y) == 0
    ensures LowZero(y, 8) && Down(y, 8) == Drop8(y)
  {
    hide Odd, Half, LowByte, Drop8;
    var y4 := Half(Half(Half(Half(y))));
    LowByteClear(y, y4);
    assert LowZero(Half(Half(Half(Half(y4)))), 0);
    Down4(y4, 0);
    Down4(y, 4);
  }

  // ---------- the table ----------

  // The table, in parts.

  lemma TablePart0(i: Quarter0)
    ensures Same(Crc32Tab(i), Shift(Shift(Shift(Shift(Shift(Shift(Shift(Shift(Word(i))))))))))
  {}

  lemma TablePart1(i: Quarter1)
    ensures Same(Crc32Tab(i), Shift(Shift(Shift(Shift(Shift(Shift(Shift(Shift(Word(i))))))))))
  {}

  lemma TablePart2(i: Quarter2)
    ensures Same(Crc32Tab(i), Shift(Shift(Shift(Shift(Shift(Shift(Shift(Shift(Word(i))))))))))
  {}

  lemma TablePart3(i: Quarter3)
    ensures Same(Crc32Tab(i), Shift(Shift(Shift(Shift(Shift(Shift(Shift(Shift(Word(i))))))))))
  {}

  lemma TableIsNestedShift(i: bv8)
    ensures Crc32Tab(i) == Shift(Shift(Shift(Shift(Shift(Shift(Shift(Shift(Word(i)))))))))
  {
    hide Crc32Tab, Shift, Word;
    if i < 0x40 {
      TablePart0(i);
    } else if i < 0x80 {
      TablePart1(i);
    } else if i < 0xc0 {
      TablePart2(i);
    } else {
      TablePart3(i);
    }
  }

  lemma Unrolled8(c: bv32)
    ensures Shifts(c, 8) == Shift(Shift(Shift(Shift(Shift(Shift(Shift(Shift(c))))))))
  {
    hide Shift;
    var c4 := Shift(Shift(Shift(Shift(c))));
    assert Shifts(c4, 4) == Shifts(Shift(Shift(c4)), 2) == Shift(Shift(Shift(Shift(c4))));
    assert Shifts(c, 8) == Shifts(Shift(Shift(c)), 6) == Shifts(c4, 4);
  }

  /** Every one of the 256 entries is what eight empty shifts give. */
  lemma TableIsShifts(i: bv8)
    ensures Crc32Tab(i) == Shifts(Word(i), 8)
  {
    hide Crc32Tab, Shift, Word;
    TableIsNestedShift(i);
    Unrolled8(Word(i));
  }

  lemma SplitLowByte(x: bv32)
    ensures x == Xor(Word(LowByte(x)), HighPart(x))
    ensures LowByte(HighPart(x)) == 0 && Drop8(HighPart(x)) == Drop8(x)
  {}

  lemma DropIgnoresByte(c: bv32, b: bv8)
    ensures Drop8(Xor(c, Word(b))) == Drop8(c)
  {}

  /** One byte of the source's loop is the byte added to the register and eight shifts. */
  lemma TableStepIsShifts(c: bv32, b: bv8)
    ensures TableStep32(c, b) == Shifts(Xor(c, Word(b)), 8)
  {
    hide Crc32Tab, Shift, Xor, Word, LowByte, HighPart, Drop8, Half, Odd;
    var x := Xor(c, Word(b));
    var lo, hi := Word(LowByte(x)), HighPart(x);
    SplitLowByte(x);
    DropIgnoresByte(c, b);
    Down8(hi);
    ShiftsLinear(lo, hi, 8);
    TableIsShifts(LowByte(x));
    XorLaws(Shifts(lo, 8), Drop8(x), 0);
  }

  // ---------- bits of a byte ----------

  /** Feeding a bit is the same as adding it to the register before an empty shift. */
  lemma BitStepIsShift(c: bv32, y: bv32)
    ensures Shift(Xor(c, y)) == Xor(BitStep32(c, Odd(y)), Half(y))
  {
    hide Xor, Half, Odd;
    HalfOfXor(c, y);
    OddOfXor(c, y);
    XorLaws(Half(c), Half(y), 0xedb88320);
    XorLaws(Half(c), 0xedb88320, Half(y));
    XorLaws(Half(y), 0xedb88320, 0);
  }

  lemma {:induction false} BitRunIsShifts(c: bv32, y: bv32, n: nat)
    ensures Shifts(Xor(c, y), n) == Xor(BitRun32(c, WordBits(y, n)), Down(y, n))
    decreases n
  {
    hide Shift, Xor, Half, Odd, BitStep32;
    if n > 0 {
      BitStepIsShift(c, y);
      BitRunIsShifts(BitStep32(c, Odd(y)), Half(y), n - 1);
      assert WordBits(y, n)[1..] == WordBits(Half(y), n - 1);
    }
  }

  lemma EightHalves(b: bv8)
    ensures Half(Half(Half(Half(Half(Half(Half(Half(Word(b))))))))) == 0
  {}

  lemma {:induction false} DownFour(y: bv32, n: nat)
    ensures Down(y, n + 4) == Down(Half(Half(Half(Half(y)))), n)
  {
    hide Half;
    var y1, y2 := Half(y), Half(Half(y));
    assert Down(y, n + 4) == Down(y1, n + 3) == Down(y2, n + 2);
    assert Down(y2, n + 2) == Down(Half(y2), n + 1);
  }

  lemma ByteUsedUp(b: bv8)
    ensures Down(Word(b), 8) == 0
  {
    hide Half, Word;
    EightHalves(b);
    DownFour(Word(b), 4);
    DownFour(Half(Half(Half(Half(Word(b))))), 0);
  }

  // ---------- CRC-32 is the bit-serial CRC-32 ----------

  lemma TableStepIsBitRun(c: bv32, b: bv8)
    ensures TableStep32(c, b) == BitRun32(c, ByteLowFirst(b))
  {
    hide TableStep32, Shift, Xor, Word, BitStep32;
    TableStepIsShifts(c, b);
    BitRunIsShifts(c, Word(b), 8);
    ByteUsedUp(b);
    XorInverse(BitRun32(c, ByteLowFirst(b)), 0);
  }

  lemma {:induction false} BitRunAppend(c: bv32, s: seq<bool>, t: seq<bool>)
    ensures BitRun32(c, s + t) == BitRun32(BitRun32(c, s), t)
    decreases |s|
  {
    hide BitStep32;
    if s == [] {
      assert s + t == t;
    } else {
      assert (s + t)[1..] == s[1..] + t;
      BitRunAppend(BitStep32(c, s[0]), s[1..], t);
    }
  }

  lemma {:induction false} TableRunIsBitRun(c: bv32, key: Key)
    ensures TableRun32(c, key) == BitRun32(c, BitsLowFirst(key))
    decreases |key|
  {
    hide TableStep32, BitStep32, ByteLowFirst;
    if key != [] {
      TableStepIsBitRun(c, key[0]);
      TableRunIsBitRun(TableStep32(c, key[0]), key[1..]);
      BitRunAppend(c, ByteLowFirst(key[0]), BitsLowFirst(key[1..]));
    }
  }

  method Crc32a(key: Key) returns (r: bv32)
    ensures r == Crc32Spec(key)
  {
    hide TableStep32, Xor;
    var crc: bv32 := 0xffff_ffff;
    var p := 0;
    while p < |key|
      invariant 0 <= p <= |key|
      invariant TableRun32(crc, key[p..]) == TableRun32(0xffff_ffff, key)
    {
      crc := TableStep32(crc, key[p]);
      p := p + 1;
    }
    TableRunIsBitRun(0xffff_ffff, key);
    return Xor(crc, 0xffff_ffff);
  }

  // ---------- the folded 15-bit hashes ----------

  /** Bits 16 to 30 of a CRC-32. */
  function Fold15(crc: bv32): bv32 {
    (crc >> 16) & 0x7fff
  }

  lemma Complement(crc: bv32)
    ensures ((crc ^ 0xffff_ffff) >> 16) & 0x7fff == Fold15(Xor(crc, 0xffff_ffff))
  {}

  /** One of the source's four identical inner loops. */
  method Continue(crc0: bv32, key: Key) returns (crc: bv32)
    ensures crc == TableRun32(crc0, key)
  {
    hide TableStep32;
    crc := crc0;
    var x := 0;
    while x < |key|
      invariant 0 <= x <= |key|
      invariant TableRun32(crc, key[x..]) == TableRun32(crc0, key)
    {
      crc := TableStep32(crc, key[x]);
      x := x + 1;
    }
  }

  method Crc32(key: Key) returns (r: bv32)
    ensures r == Fold15(Crc32Spec(key))
  {
    hide TableStep32, Xor;
    var crc := Continue(0xffff_ffff, key);
    TableRunIsBitRun(0xffff_ffff, key);
    Complement(crc);
    return ((crc ^ 0xffff_ffff) >> 16) & 0x7fff;
  }

  /** Hashing the parts one after the other is hashing their concatenation. */
  method Crc32_2(key: Key, key1: Key) returns (r: bv32)
    ensures r == Fold15(Crc32Spec(key + key1))
  {
    hide TableStep32, Xor;
    var crc := Continue(0xffff_ffff, key);
    crc := Continue(crc, key1);
    RunAppend(0xffff_ffff, key, key1);
    TableRunIsBitRun(0xffff_ffff, key + key1);
    Complement(crc);
    return ((crc ^ 0xffff_ffff) >> 16) & 0x7fff;
  }

  method Crc32_3(key: Key, key1: Key, key2: Key) returns (r: bv32)
    ensures r == Fold15(Crc32Spec(key + key1 + key2))
  {
    hide TableStep32, Xor;
    var crc := Continue(0xffff_ffff, key);
    crc := Continue(crc, key1);
    crc := Continue(crc, key2);
    RunAppend(0xffff_ffff, key, key1);
    RunAppend(0xffff_ffff, key + key1, key2);
    TableRunIsBitRun(0xffff_ffff, key + key1 + key2);
    Complement(crc);
    return ((crc ^ 0xffff_ffff) >> 16) & 0x7fff;
  }

  method Crc32_4(key: Key, key1: Key, key2: Key, key3: Key) returns (r: bv32)
    ensures r == Fold15(Crc32Spec(key + key1 + key2 + key3))
  {
    hide TableStep32, Xor;
    var crc := Continue(0xffff_ffff, key);
    crc := Continue(crc, key1);
    crc := Continue(crc, key2);
    crc := Continue(crc, key3);
    RunAppend(0xffff_ffff, key, key1);
    RunAppend(0xffff_ffff, key + key1, key2);
    RunAppend(0xffff_ffff, key + key1 + key2, key3);
    TableRunIsBitRun(0xffff_ffff, key + key1 + key2 + key3);
    Complement(crc);
    return ((crc ^ 0xffff_ffff) >> 16) & 0x7fff;
  }

  // ---------- error detection ----------

  /** For a fixed byte the step is injective, hence a bijection, on the register. */
  lemma StepInjective(c: bv32, d: bv32, b: bv8)
    ensures TableStep32(c, b) == TableStep32(d, b) ==> c == d
  {
    hide TableStep32, Shift, Xor;
    TableStepIsShifts(c, b);
    TableStepIsShifts(d, b);
    ShiftsInjective(Xor(c, Word(b)), Xor(d, Word(b)), 8);
    XorInverse(c, Word(b));
    XorInverse(d, Word(b));
  }

  lemma {:induction false} RunInjective(c: bv32, d: bv32, key: Key)
    ensures TableRun32(c, key) == TableRun32(d, key) ==> c == d
    decreases |key|
  {
    hide TableStep32;
    if key != [] {
      RunInjective(TableStep32(c, key[0]), TableStep32(d, key[0]), key[1..]);
      StepInjective(c, d, key[0]);
    }
  }

  lemma {:induction false} RunAppend(c: bv32, s: Key, t: Key)
    ensures TableRun32(c, s + t) == TableRun32(TableRun32(c, s), t)
    decreases |s|
  {
    hide TableStep32;
    if s == [] {
      assert s + t == t;
    } else {
      assert (s + t)[1..] == s[1..] + t;
      RunAppend(TableStep32(c, s[0]), s[1..], t);
    }
  }

  function Up8(x: bv32): bv32 { x << 8 }
  function Up16(x: bv32): bv32 { x << 16 }
  function Up24(x: bv32): bv32 { x << 24 }

  lemma LittleEndianIsSum(a: bv8, b: bv8, c: bv8, d: bv8)
    ensures LittleEndian(a, b, c, d) == Xor(Word(a), Xor(Up8(Word(b)), Xor(Up16(Word(c)), Up24(Word(d)))))
  {}

  lemma UpLevels(b: bv8)
    ensures LowByte(Up8(Word(b))) == 0 && Drop8(Up8(Word(b))) == Word(b)
    ensures LowByte(Up16(Word(b))) == 0 && Drop8(Up16(Word(b))) == Up8(Word(b))
    ensures LowByte(Up24(Word(b))) == 0 && Drop8(Up24(Word(b))) == Up16(Word(b))
  {}

  /** A word whose low byte is clear can be added before eight shifts instead of after. */
  lemma AddEarlier(x: bv32, y: bv32)
    requires LowByte(y) == 0
    ensures Xor(Shifts(x, 8), Drop8(y)) == Shifts(Xor(x, y), 8)
  {
    hide Shift, Xor, Drop8, LowByte, Half, Odd;
    Down8(y);
    ShiftsLinear(x, y, 8);
  }

  /** Four byte steps are one addition of the 32-bit word and 32 empty shifts. */
  lemma FourSteps(s: bv32, a: bv8, b: bv8, c: bv8, d: bv8)
    ensures TableRun32(s, [a, b, c, d]) == Shifts(Xor(s, LittleEndian(a, b, c, d)), 32)
  {
    hide TableStep32, Shift, Xor, Word, Up8, Up16, Up24, LittleEndian;
    var x2 := Xor(Xor(s, Word(a)), Up8(Word(b)));
    var x3 := Xor(x2, Up16(Word(c)));
    TwoSteps(s, a, b);
    ThirdStep(x2, c);
    FourthStep(x3, d);
    QuadSum(s, a, b, c, d);
    RunOfFour(s, a, b, c, d);
  }

  lemma RunOfFour(s: bv32, a: bv8, b: bv8, c: bv8, d: bv8)
    ensures TableRun32(s, [a, b, c, d]) == TableStep32(TableStep32(TableStep32(TableStep32(s, a), b), c), d)
  {
    hide TableStep32;
    RunAppend(s, [a, b], [c, d]);
    assert [a, b, c, d] == [a, b] + [c, d];
    RunOfTwo(s, a, b);
    RunOfTwo(TableStep32(TableStep32(s, a), b), c, d);
  }

  lemma RunOfTwo(s: bv32, a: bv8, b: bv8)
    ensures TableRun32(s, [a, b]) == TableStep32(TableStep32(s, a), b)
  {
    hide TableStep32;
    assert [a, b][1..] == [b] && [b][1..] == [];
    assert TableRun32(TableStep32(s, a), [b]) == TableStep32(TableStep32(s, a), b);
  }

  lemma QuadSum(s: bv32, a: bv8, b: bv8, c: bv8, d: bv8)
    ensures Xor(Xor(Xor(Xor(s, Word(a)), Up8(Word(b))), Up16(Word(c))), Up24(Word(d))) ==
            Xor(s, LittleEndian(a, b, c, d))
  {
    LittleEndianIsSum(a, b, c, d);
    hide Xor, Word, Up8, Up16, Up24, LittleEndian;
    var wa, wb, wc, wd := Word(a), Up8(Word(b)), Up16(Word(c)), Up24(Word(d));
    XorLaws(Xor(Xor(s, wa), wb), wc, wd);
    XorLaws(Xor(s, wa), wb, Xor(wc, wd));
    XorLaws(s, wa, Xor(wb, Xor(wc, wd)));
  }

  lemma ThirdStep(x: bv32, c: bv8)
    ensures TableStep32(Shifts(x, 16), c) == Shifts(Xor(x, Up16(Word(c))), 24)
  {
    hide TableStep32, Shift, Xor, Drop8, LowByte, Word, Up8, Up16;
    UpLevels(c);
    var w := Word(c);
    TableStepIsShifts(Shifts(x, 16), c);
    ShiftsCompose(x, 8, 8);
    AddEarlier(Shifts(x, 8), Up8(w));
    AddEarlier(x, Up16(w));
    ShiftsCompose(Xor(x, Up16(w)), 8, 8);
    ShiftsCompose(Xor(x, Up16(w)), 16, 8);
  }

  lemma TwoSteps(s: bv32, a: bv8, b: bv8)
    ensures TableStep32(TableStep32(s, a), b) == Shifts(Xor(Xor(s, Word(a)), Up8(Word(b))), 16)
  {
    hide TableStep32, Shift, Xor, Drop8, LowByte, Word, Up8;
    UpLevels(b);
    var x1 := Xor(s, Word(a));
    TableStepIsShifts(s, a);
    TableStepIsShifts(Shifts(x1, 8), b);
    AddEarlier(x1, Up8(Word(b)));
    ShiftsCompose(Xor(x1, Up8(Word(b))), 8, 8);
  }

  lemma FourthStep(x: bv32, d: bv8)
    ensures TableStep32(Shifts(x, 24), d) == Shifts(Xor(x, Up24(Word(d))), 32)
  {
    hide TableStep32, Shift, Xor, Drop8, LowByte, Word, Up8, Up16, Up24;
    UpLevels(d);
    var w := Word(d);
    TableStepIsShifts(Shifts(x, 24), d);
    ShiftsCompose(x, 16, 8);
    ShiftsCompose(x, 8, 8);
    AddEarlier(Shifts(x, 16), Up8(w));
    AddEarlier(Shifts(x, 8), Up16(w));
    AddEarlier(x, Up24(w));
    var y := Xor(x, Up24(w));
    ShiftsCompose(y, 8, 8);
    ShiftsCompose(y, 16, 8);
    ShiftsCompose(y, 24, 8);
  }

  lemma FourBytesInjective(s: bv32, u: Key, v: Key)
    requires |u| == |v| == 4 && u != v
    ensures TableRun32(s, u) != TableRun32(s, v)
  {
    hide TableStep32, Shift, Xor, LittleEndian;
    assert u == [u[0], u[1], u[2], u[3]] && v == [v[0], v[1], v[2], v[3]];
    FourSteps(s, u[0], u[1], u[2], u[3]);
    FourSteps(s, v[0], v[1], v[2], v[3]);
    var q, q' := LittleEndian(u[0], u[1], u[2], u[3]), LittleEndian(v[0], v[1], v[2], v[3]);
    ShiftsInjective(Xor(s, q), Xor(s, q'), 32);
    XorLaws(s, q, 0);
    XorLaws(s, q', 0);
    XorInverse(q, s);
    XorInverse(q', s);
    if q == q' {
      LittleEndianInjective(u[0], u[1], u[2], u[3], v[0], v[1], v[2], v[3]);
    }
  }

  /** Equal-length keys that differ only inside a window of at most four bytes never
      share a CRC-32. */
  lemma BurstDetected(pre: Key, u: Key, v: Key, post: Key)
    requires |u| == |v| <= 4 && u != v
    ensures Crc32Spec(pre + u + post) != Crc32Spec(pre + v + post)
  {
    hide TableStep32, Xor, BitStep32;
    var s := TableRun32(0xffff_ffff, pre);
    var pad: Key := seq(4 - |u|, _ => 0);
    if TableRun32(s, u) == TableRun32(s, v) {
      RunAppend(s, u, pad);
      RunAppend(s, v, pad);
      assert (u + pad)[..|u|] == u && (v + pad)[..|u|] == v;
      FourBytesInjective(s, u + pad, v + pad);
      assert false;
    }
    WholeRun(pre, u, post);
    WholeRun(pre, v, post);
    RunInjective(TableRun32(s, u), TableRun32(s, v), post);
    XorInverse(TableRun32(0xffff_ffff, pre + u + post), 0xffff_ffff);
    XorInverse(TableRun32(0xffff_ffff, pre + v + post), 0xffff_ffff);
  }

  lemma WholeRun(pre: Key, u: Key, post: Key)
    ensures TableRun32(TableRun32(TableRun32(0xffff_ffff, pre), u), post) == TableRun32(0xffff_ffff, pre + u + post)
    ensures Crc32Spec(pre + u + post) == Xor(TableRun32(0xffff_ffff, pre + u + post), 0xffff_ffff)
  {
    hide TableStep32, Xor, BitStep32;
    RunAppend(0xffff_ffff, pre, u);
    RunAppend(0xffff_ffff, pre + u, post);
    TableRunIsBitRun(0xffff_ffff, pre + u + post);
  }

}
