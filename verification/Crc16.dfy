/** Crc16 of src/gorm_hash.cc: its register is 32 bits wide and never masked, so only
    the low half of what it returns is the CRC. */
module Crc16 {
  import opened CrcTables

  type Key = seq<bv8>

  // Word operations under a name, so that proofs can treat them as symbols.
  function Xor(x: bv16, y: bv16): bv16 { x ^ y }
  function Twice(x: bv16): bv16 { x << 1 }
  predicate Top(x: bv16) { x & 0x8000 != 0 }
  function Low(c: bv32): bv16 { (c & 0xffff) as bv16 }
  function HighByte(x: bv16): bv8 { (x >> 8) as bv8 }
  function AtTop(b: bv8): bv16 { (b as bv16) << 8 }
  function LowPart(x: bv16): bv16 { x & 0xff }
  function Raise8(x: bv16): bv16 { x << 8 }

  /** Equality under a name: it keeps the solver from rewriting words across it. */
  predicate Same(x: bv16, y: bv16) { x == y }

  // ---------- bit-serial definition ----------

  /** One bit through the CRC-16 register with polynomial 0x1021, high bit first. */
  function BitStep(c: bv16, bit: bool): bv16 {
    if Top(c) != bit then Xor(Twice(c), 0x1021) else Twice(c)
  }

  function BitRun(c: bv16, bits: seq<bool>): bv16
    decreases |bits|
  {
    if bits == [] then c else BitRun(BitStep(c, bits[0]), bits[1..])
  }

  /** The n highest bits of a word, highest first. */
  function HighBits(y: bv16, n: nat): (bits: seq<bool>)
    ensures |bits| == n
    decreases n
  {
    if n == 0 then [] else [Top(y)] + HighBits(Twice(y), n - 1)
  }

  function ByteHighFirst(b: bv8): (bits: seq<bool>) {
    HighBits(AtTop(b), 8)
  }

  function BitsHighFirst(key: Key): (bits: seq<bool>)
    ensures |bits| == 8 * |key|
  {
    if key == [] then [] else ByteHighFirst(key[0]) + BitsHighFirst(key[1..])
  }

  function Crc16Spec(key: Key): bv16 {
    BitRun(0, BitsHighFirst(key))
  }

  // ---------- the source's step ----------

  function TableStep(c: bv32, b: bv8): bv32 {
    (c << 8) ^ (Crc16Tab((((c >> 8) ^ b as bv32) & 0xff) as bv8) as bv32)
  }

  function TableRun(c: bv32, key: Key): bv32
    decreases |key|
  {
    if key == [] then c else TableRun(TableStep(c, key[0]), key[1..])
  }

  // ---------- the register without input ----------

  function Shift(c: bv16): bv16 {
    BitStep(c, false)
  }

  function Shifts(c: bv16, n: nat): bv16
    decreases n
  {
    if n == 0 then c else Shifts(Shift(c), n - 1)
  }

  function Up(y: bv16, n: nat): bv16
    decreases n
  {
    if n == 0 then y else Up(Twice(y), n - 1)
  }

  predicate HighZero(y: bv16, n: nat)
    decreases n
  {
    n == 0 || (!Top(y) && HighZero(Twice(y), n - 1))
  }

  lemma XorAssociates(x: bv16, y: bv16, z: bv16)
    ensures Xor(Xor(x, y), z) == Xor(x, Xor(y, z))
  {}

  lemma XorCommutes(x: bv16, y: bv16)
    ensures Xor(x, y) == Xor(y, x)
  {}

  lemma XorZero(x: bv16)
    ensures Xor(x, 0) == x
  {}

  lemma TwiceOfXor(x: bv16, y: bv16)
    ensures Twice(Xor(x, y)) == Xor(Twice(x), Twice(y))
  {}

  lemma TopOfXor(x: bv16, y: bv16)
    ensures Top(Xor(x, y)) == (Top(x) != Top(y))
  {}

  /** Feeding a bit is the same as adding it to the register before an empty shift. */
  lemma BitStepIsShift(c: bv16, y: bv16)
    ensures Shift(Xor(c, y)) == Xor(BitStep(c, Top(y)), Twice(y))
  {
    hide Xor, Twice, Top;
    TwiceOfXor(c, y);
    TopOfXor(c, y);
    XorAssociates(Twice(c), Twice(y), 0x1021);
    XorAssociates(Twice(c), 0x1021, Twice(y));
    XorCommutes(Twice(y), 0x1021);
  }

  lemma {:induction false} BitRunIsShifts(c: bv16, y: bv16, n: nat)
    ensures Shifts(Xor(c, y), n) == Xor(BitRun(c, HighBits(y, n)), Up(y, n))
    decreases n
  {
    hide Shift, Xor, Twice, Top, BitStep;
    if n > 0 {
      BitStepIsShift(c, y);
      BitRunIsShifts(BitStep(c, Top(y)), Twice(y), n - 1);
      assert HighBits(y, n)[1..] == HighBits(Twice(y), n - 1);
    }
  }

  /** Bits that never reach the high end only move up. */
  lemma {:induction false} ShiftsLinear(x: bv16, y: bv16, n: nat)
    requires HighZero(y, n)
    ensures Shifts(Xor(x, y), n) == Xor(Shifts(x, n), Up(y, n))
    decreases n
  {
    hide Xor, Twice, Top, BitStep, Shift;
    if n > 0 {
      BitStepIsShift(x, y);
      assert BitStep(x, false) == Shift(x) by { SameStep(x); }
      ShiftsLinear(Shift(x), Twice(y), n - 1);
    }
  }

  lemma SameStep(x: bv16)
    ensures BitStep(x, false) == Shift(x)
  {}

  lemma HighByteClear(y: bv16, y4: bv16)
    requires HighByte(y) == 0 && y4 == Twice(Twice(Twice(Twice(y))))
    ensures !Top(y) && !Top(Twice(y)) && !Top(Twice(Twice(y))) && !Top(Twice(Twice(Twice(y))))
    ensures !Top(y4) && !Top(Twice(y4)) && !Top(Twice(Twice(y4))) && !Top(Twice(Twice(Twice(y4))))
  {}

  lemma EightTwices(y: bv16)
    ensures Twice(Twice(Twice(Twice(Twice(Twice(Twice(Twice(y)))))))) == Raise8(y)
  {}

  lemma {:induction false} UpFour(y: bv16, n: nat)
    ensures Up(y, n + 4) == Up(Twice(Twice(Twice(Twice(y)))), n)
  {
    hide Twice;
    var y1, y2 := Twice(y), Twice(Twice(y));
    assert Up(y, n + 4) == Up(y1, n + 3) == Up(y2, n + 2);
    assert Up(y2, n + 2) == Up(Twice(y2), n + 1);
  }

  lemma Up8(y: bv16)
    ensures Up(y, 8) == Raise8(y)
  {
    hide Twice, Raise8;
    EightTwices(y);
    UpFour(y, 4);
    UpFour(Twice(Twice(Twice(Twice(y)))), 0);
  }

  lemma ClearFour(y: bv16, n: nat)
    requires !Top(y) && !Top(Twice(y)) && !Top(Twice(Twice(y))) && !Top(Twice(Twice(Twice(y))))
    requires HighZero(Twice(Twice(Twice(Twice(y)))), n)
    ensures HighZero(y, n + 4)
  {
    hide Top, Twice;
    var y1, y2 := Twice(y), Twice(Twice(y));
    assert HighZero(y2, n + 2) by { assert HighZero(Twice(y2), n + 1); }
    assert HighZero(y1, n + 3);
  }

  lemma ClearEight(y: bv16)
    requires HighByte(y) == 0
    ensures HighZero(y, 8)
  {
    hide Top, Twice, HighByte;
    var y4 := Twice(Twice(Twice(Twice(y))));
    HighByteClear(y, y4);
    assert HighZero(Twice(Twice(Twice(Twice(y4)))), 0);
    ClearFour(y4, 0);
    ClearFour(y, 4);
  }

  // ---------- the table ----------

  // The table, in parts.

  lemma TablePart0(i: Quarter0)
    ensures Same(Crc16Tab(i), Shift(Shift(Shift(Shift(Shift(Shift(Shift(Shift(AtTop(i))))))))))
  {}

  lemma TablePart1(i: Quarter1)
    ensures Same(Crc16Tab(i), Shift(Shift(Shift(Shift(Shift(Shift(Shift(Shift(AtTop(i))))))))))
  {}

  lemma TablePart2(i: Quarter2)
    ensures Same(Crc16Tab(i), Shift(Shift(Shift(Shift(Shift(Shift(Shift(Shift(AtTop(i))))))))))
  {}

  lemma TablePart3(i: Quarter3)
    ensures Same(Crc16Tab(i), Shift(Shift(Shift(Shift(Shift(Shift(Shift(Shift(AtTop(i))))))))))
  {}

  lemma TableIsNestedShift(i: bv8)
    ensures Crc16Tab(i) == Shift(Shift(Shift(Shift(Shift(Shift(Shift(Shift(AtTop(i)))))))))
  {
    hide Crc16Tab, Shift, AtTop;
    if i < 0x40 {
      TablePart0(i);
    } else if i < 0x80 {
      TablePart1(i);
    } else if i < 0xc0 {
      TablePart2(i);
    } else {
      TablePart3(i);
    }
  }

  lemma Unrolled8(c: bv16)
    ensures Shifts(c, 8) == Shift(Shift(Shift(Shift(Shift(Shift(Shift(Shift(c))))))))
  {
    hide Shift;
    var c4 := Shift(Shift(Shift(Shift(c))));
    assert Shifts(c4, 4) == Shifts(Shift(Shift(c4)), 2) == Shift(Shift(Shift(Shift(c4))));
    assert Shifts(c, 8) == Shifts(Shift(Shift(c)), 6) == Shifts(c4, 4);
  }

  lemma TableIsShifts(i: bv8)
    ensures Crc16Tab(i) == Shifts(AtTop(i), 8)
  {
    hide Crc16Tab, Shift, AtTop;
    TableIsNestedShift(i);
    Unrolled8(AtTop(i));
  }

  lemma SplitHighByte(x: bv16)
    ensures x == Xor(AtTop(HighByte(x)), LowPart(x)) && HighByte(LowPart(x)) == 0
  {}

  lemma RaiseIgnoresTop(c: bv16, b: bv8)
    ensures Raise8(LowPart(Xor(c, AtTop(b)))) == Raise8(c) && Raise8(AtTop(b)) == 0
  {}

  lemma IndexOfStep(c: bv32, b: bv8)
    ensures (((c >> 8) ^ b as bv32) & 0xff) as bv8 == HighByte(Xor(Low(c), AtTop(b)))
  {}

  lemma LowOfRegister(c: bv32, t: bv16)
    ensures Low((c << 8) ^ (t as bv32)) == Xor(Raise8(Low(c)), t)
  {}

  lemma LowOfStep(c: bv32, b: bv8)
    ensures Low(TableStep(c, b)) == Xor(Raise8(Low(c)), Crc16Tab(HighByte(Xor(Low(c), AtTop(b)))))
  {
    hide Crc16Tab, Xor, Low, HighByte, AtTop, Raise8;
    IndexOfStep(c, b);
    LowOfRegister(c, Crc16Tab(HighByte(Xor(Low(c), AtTop(b)))));
  }

  /** One byte of the source's loop, seen through the low half of its register. */
  lemma LowStepIsBitRun(c: bv32, b: bv8)
    ensures Low(TableStep(c, b)) == BitRun(Low(c), ByteHighFirst(b))
  {
    hide TableStep, Crc16Tab, Shift, BitStep, Xor, Twice, Top, Low, HighByte, AtTop, LowPart, Raise8;
    var x := Xor(Low(c), AtTop(b));
    LowOfStep(c, b);
    Shifts8Split(x);
    TableIsShifts(HighByte(x));
    RaiseIgnoresTop(Low(c), b);
    XorCommutes(Shifts(AtTop(HighByte(x)), 8), Raise8(Low(c)));
    BitRunIsShifts(Low(c), AtTop(b), 8);
    Up8(AtTop(b));
    XorZero(BitRun(Low(c), ByteHighFirst(b)));
  }

  lemma Shifts8Split(x: bv16)
    ensures Shifts(x, 8) == Xor(Shifts(AtTop(HighByte(x)), 8), Raise8(LowPart(x)))
  {
    hide Shift, BitStep, Xor, Twice, Top, HighByte, AtTop, LowPart, Raise8;
    SplitHighByte(x);
    ClearEight(LowPart(x));
    Up8(LowPart(x));
    ShiftsLinear(AtTop(HighByte(x)), LowPart(x), 8);
  }

  lemma {:induction false} BitRunAppend(c: bv16, s: seq<bool>, t: seq<bool>)
    ensures BitRun(c, s + t) == BitRun(BitRun(c, s), t)
    decreases |s|
  {
    hide BitStep;
    if s == [] {
      assert s + t == t;
    } else {
      assert (s + t)[1..] == s[1..] + t;
      BitRunAppend(BitStep(c, s[0]), s[1..], t);
    }
  }

  lemma {:induction false} LowRunIsBitRun(c: bv32, key: Key)
    ensures Low(TableRun(c, key)) == BitRun(Low(c), BitsHighFirst(key))
    decreases |key|
  {
    hide TableStep, BitStep, ByteHighFirst, Low;
    if key != [] {
      LowStepIsBitRun(c, key[0]);
      LowRunIsBitRun(TableStep(c, key[0]), key[1..]);
      BitRunAppend(Low(c), ByteHighFirst(key[0]), BitsHighFirst(key[1..]));
    }
  }

  // ---------- the half that is not masked ----------

  function Upper(c: bv32): bv16 { (c >> 16) as bv16 }
  function Wide(x: bv16): bv32 { x as bv32 }
  function Joined(high: bv8, low: bv8): bv16 { AtTop(high) | (low as bv16) }

  lemma {:induction false} TableRunLast(c: bv32, key: Key, b: bv8)
    ensures TableRun(c, key + [b]) == TableStep(TableRun(c, key), b)
    decreases |key|
  {
    hide TableStep;
    if key == [] {
      assert [] + [b] == [b] && [b][1..] == [];
    } else {
      assert (key + [b])[1..] == key[1..] + [b];
      TableRunLast(TableStep(c, key[0]), key[1..], b);
    }
  }

  lemma LowOfRun(key: Key)
    ensures Low(TableRun(0, key)) == Crc16Spec(key)
  {
    LowOfZero();
    hide Low, TableRun, BitRun, BitsHighFirst;
    LowRunIsBitRun(0, key);
  }

  /** A step moves the high byte of the low half up, and the byte above it. */
  lemma UpperOfStep(c: bv32, b: bv8)
    ensures Upper(TableStep(c, b)) == Joined(LowByteOf(Upper(c)), HighByte(Low(c)))
  {
    UpperOfRegister(c, Crc16Tab((((c >> 8) ^ b as bv32) & 0xff) as bv8));
    hide Crc16Tab;
  }

  function LowByteOf(x: bv16): bv8 { (x & 0xff) as bv8 }

  lemma UpperOfRegister(c: bv32, t: bv16)
    ensures Upper((c << 8) ^ (t as bv32)) == Joined(LowByteOf(Upper(c)), HighByte(Low(c)))
  {}

  lemma JoinedLaws(high: bv8, low: bv8)
    ensures LowByteOf(Joined(high, low)) == low && (Joined(high, low) == 0 <==> high == 0 && low == 0)
  {}

  lemma UpperOfZero()
    ensures Upper(0) == 0 && LowByteOf(0) == 0 && Low(0) == 0 && HighByte(0) == 0
  {}

  lemma IsItsLowHalf(c: bv32)
    ensures c == Wide(Low(c)) <==> Upper(c) == 0
  {}

  /** What the returned word holds above the CRC: the high bytes of the CRCs of the key without
      its last byte and without its last two. */
  lemma UpperHalf(s: Key, a: bv8, b: bv8)
    ensures Upper(TableRun(0, s + [a] + [b])) == Joined(HighByte(Crc16Spec(s)), HighByte(Crc16Spec(s + [a])))
  {
    hide TableStep, TableRun, Upper, Low, HighByte, Joined, LowByteOf, Crc16Spec;
    var c := TableRun(0, s);
    TableRunLast(0, s, a);
    TableRunLast(0, s + [a], b);
    LowOfRun(s);
    LowOfRun(s + [a]);
    UpperOfStep(c, a);
    UpperOfStep(TableRun(0, s + [a]), b);
    JoinedLaws(LowByteOf(Upper(c)), HighByte(Low(c)));
  }

  /** The returned word is the CRC exactly if both of these bytes are clear. */
  ghost predicate UpperClear(key: Key) {
    |key| < 2 || (HighByte(Crc16Spec(key[..|key| - 1])) == 0 && HighByte(Crc16Spec(key[..|key| - 2])) == 0)
  }

  lemma ShortUpper(key: Key)
    requires |key| < 2
    ensures Upper(TableRun(0, key)) == 0
  {
    hide TableStep, Upper, Low, HighByte, Joined, LowByteOf;
    UpperOfZero();
    if |key| == 1 {
      TableRunLast(0, [], key[0]);
      assert [] + [key[0]] == key;
      UpperOfStep(0, key[0]);
      JoinedLaws(0, 0);
    }
  }

  lemma LongUpper(key: Key)
    requires |key| >= 2
    ensures Upper(TableRun(0, key)) == 0 <==> UpperClear(key)
  {
    hide TableRun, Upper, HighByte, Joined, Crc16Spec;
    var n := |key|;
    var s, a, b := key[..n - 2], key[n - 2], key[n - 1];
    assert s + [a] == key[..n - 1] && s + [a] + [b] == key;
    UpperHalf(s, a, b);
    JoinedLaws(HighByte(Crc16Spec(s)), HighByte(Crc16Spec(s + [a])));
  }

  lemma IsCrcIff(key: Key)
    ensures TableRun(0, key) == Wide(Crc16Spec(key)) <==> UpperClear(key)
  {
    hide TableRun, Upper, Low, HighByte, Crc16Spec, Wide;
    LowOfRun(key);
    IsItsLowHalf(TableRun(0, key));
    if |key| < 2 {
      ShortUpper(key);
    } else {
      hide UpperClear;
      LongUpper(key);
    }
  }

  method Crc16(key: Key) returns (r: bv32)
    ensures r == TableRun(0, key) && Low(r) == Crc16Spec(key)
    ensures r == Wide(Crc16Spec(key)) <==> UpperClear(key)
  {
    IsCrcIff(key);
    hide TableStep, Low;
    var crc: bv32 := 0;
    var x := 0;
    while x < |key|
      invariant 0 <= x <= |key|
      invariant TableRun(crc, key[x..]) == TableRun(0, key)
    {
      crc := TableStep(crc, key[x]);
      x := x + 1;
    }
    LowRunIsBitRun(0, key);
    assert Low(0) == 0 by { LowOfZero(); }
    return crc;
  }

  lemma LowOfZero()
    ensures Low(0) == 0
  {}

  /** The missing mask is visible: for this two-byte key the returned word is not its own low half. */
  lemma UpperHalfIsNotClear()
    ensures TableRun(0, [1, 0]) == 0x0010_3331 && Crc16Spec([1, 0]) == 0x3331
  {
    assert TableStep(0, 1) == 0x1021;
    assert TableStep(0x1021, 0) == 0x0010_3331;
    assert [1, 0][1..] == [0] && [0 as bv8][1..] == [];
    assert TableRun(0x1021, [0]) == TableStep(0x1021, 0);
    assert TableRun(0, [1, 0]) == TableRun(0x1021, [0]);
    LowRunIsBitRun(0, [1, 0]);
  }
}
