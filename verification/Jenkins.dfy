/** Jenkins of src/gorm_hash.cc.  The source chooses one of three loops by the alignment
    of the key's address; on a little-endian machine all three compute one function of
    the key's bytes, although the aligned loop reads bytes beyond its end. */
module Jenkins {
  import opened Basics
  import opened Words

  type Bytes = seq<bv8>

  datatype Regs = Regs(a: bv32, b: bv32, c: bv32)

  type Shift = k: bv8 | k < 32

  function Rot(x: bv32, k: Shift): bv32 {
    (x << k) | (x >> (32 - k))
  }

  function Mix(s: Regs): Regs {
    var Regs(a, b, c) := s;
    var a := (a - c) ^ Rot(c, 4);  var c := c + b;
    var b := (b - a) ^ Rot(a, 6);  var a := a + c;
    var c := (c - b) ^ Rot(b, 8);  var b := b + a;
    var a := (a - c) ^ Rot(c, 16); var c := c + b;
    var b := (b - a) ^ Rot(a, 19); var a := a + c;
    var c := (c - b) ^ Rot(b, 4);  var b := b + a;
    Regs(a, b, c)
  }

  function Final(s: Regs): Regs {
    var Regs(a, b, c) := s;
    var c := (c ^ b) - Rot(b, 14);
    var a := (a ^ c) - Rot(c, 11);
    var b := (b ^ a) - Rot(a, 25);
    var c := (c ^ b) - Rot(b, 16);
    var a := (a ^ c) - Rot(c, 4);
    var b := (b ^ a) - Rot(a, 14);
    var c := (c ^ b) - Rot(b, 24);
    Regs(a, b, c)
  }

  function Init(len: nat): Regs {
    var v := 0xdead_beef + ((len % 0x1_0000_0000) as bv32) + 13;
    Regs(v, v, v)
  }

  // ---------- the hash as a function of the key's bytes ----------

  function ByteAt(key: Bytes, j: nat): bv8 {
    if j < |key| then key[j] else 0
  }

  /** Word w of a block, with zeros past the end of the key. */
  function WordAt(key: Bytes, w: nat): bv32 {
    LittleEndian(ByteAt(key, 4 * w), ByteAt(key, 4 * w + 1), ByteAt(key, 4 * w + 2), ByteAt(key, 4 * w + 3))
  }

  function AddBlock(s: Regs, key: Bytes): Regs {
    Regs(Plus(s.a, WordAt(key, 0)), Plus(s.b, WordAt(key, 1)), Plus(s.c, WordAt(key, 2)))
  }

  function Run(s: Regs, key: Bytes): Regs
    decreases |key|
  {
    if |key| <= 12 then AddBlock(s, key) else Run(Mix(AddBlock(s, key[..12])), key[12..])
  }

  /** Twelve-byte blocks, the last one padded with zeros and finished; the empty key is not mixed. */
  function JenkinsSpec(key: Bytes): bv32 {
    if key == [] then Init(0).c else Final(Run(Init(|key|), key)).c
  }

  // ---------- loads and partial words as the source writes them ----------

  function Load32(mem: Bytes, i: nat): bv32
    requires i + 4 <= |mem|
  {
    LittleEndian(mem[i], mem[i + 1], mem[i + 2], mem[i + 3])
  }

  function Load16(mem: Bytes, i: nat): bv16
    requires i + 2 <= |mem|
  {
    Word16(mem[i], mem[i + 1])
  }

  function Word16(a: bv8, b: bv8): bv16 { (a as bv16) | ((b as bv16) << 8) }
  function Low16(h: bv16): bv32 { h as bv32 }
  function High16(h: bv16): bv32 { (h as bv32) << 16 }
  function Mask24(w: bv32): bv32 { w & 0xff_ffff }
  function Mask16(w: bv32): bv32 { w & 0xffff }
  function Mask8(w: bv32): bv32 { w & 0xff }
  function At(b: bv8, shift: Shift): bv32 {
    (b as bv32) << shift
  }

  /** The masks remove whatever was read beyond the end of the key. */
  lemma Masked24(a: bv8, b: bv8, c: bv8, d: bv8)
    ensures Mask24(LittleEndian(a, b, c, d)) == LittleEndian(a, b, c, 0)
  {}

  lemma Masked16(a: bv8, b: bv8, c: bv8, d: bv8)
    ensures Mask16(LittleEndian(a, b, c, d)) == LittleEndian(a, b, 0, 0)
  {}

  lemma Masked8(a: bv8, b: bv8, c: bv8, d: bv8)
    ensures Mask8(LittleEndian(a, b, c, d)) == LittleEndian(a, 0, 0, 0)
  {}

  lemma HalvesSum(a: bv8, b: bv8, c: bv8, d: bv8)
    ensures Plus(Low16(Word16(a, b)), High16(Word16(c, d))) == LittleEndian(a, b, c, d)
  {}

  lemma OneHalf(a: bv8, b: bv8)
    ensures Low16(Word16(a, b)) == LittleEndian(a, b, 0, 0)
  {}

  lemma Sum1(a: bv8)
    ensures At(a, 0) == LittleEndian(a, 0, 0, 0)
  {}

  lemma Sum2(a: bv8, b: bv8)
    ensures Plus(At(b, 8), At(a, 0)) == LittleEndian(a, b, 0, 0)
  {}

  lemma Sum3(a: bv8, b: bv8, c: bv8)
    ensures Plus(At(c, 16), LittleEndian(a, b, 0, 0)) == LittleEndian(a, b, c, 0)
  {}

  lemma Sum4(a: bv8, b: bv8, c: bv8, d: bv8)
    ensures Plus(At(d, 24), LittleEndian(a, b, c, 0)) == LittleEndian(a, b, c, d)
  {}

  lemma NoBytes(x: bv32)
    ensures Plus(x, LittleEndian(0, 0, 0, 0)) == x
  {}

  // Fall-through additions: the bytes of one word, highest first.

  lemma AddTwo(x: bv32, a: bv8, b: bv8)
    ensures Plus(Plus(x, At(b, 8)), At(a, 0)) == Plus(x, LittleEndian(a, b, 0, 0))
  {
    hide Plus, At, LittleEndian;
    Sum2(a, b);
    PlusAssociates(x, At(b, 8), At(a, 0));
  }

  lemma AddThree(x: bv32, a: bv8, b: bv8, c: bv8)
    ensures Plus(Plus(Plus(x, At(c, 16)), At(b, 8)), At(a, 0)) == Plus(x, LittleEndian(a, b, c, 0))
    ensures Plus(Plus(x, At(c, 16)), Low16(Word16(a, b))) == Plus(x, LittleEndian(a, b, c, 0))
  {
    hide Plus, At, LittleEndian, Word16, Low16;
    AddTwo(Plus(x, At(c, 16)), a, b);
    OneHalf(a, b);
    Sum3(a, b, c);
    PlusAssociates(x, At(c, 16), LittleEndian(a, b, 0, 0));
  }

  lemma AddFour(x: bv32, a: bv8, b: bv8, c: bv8, d: bv8)
    ensures Plus(Plus(Plus(Plus(x, At(d, 24)), At(c, 16)), At(b, 8)), At(a, 0)) == Plus(x, LittleEndian(a, b, c, d))
  {
    hide Plus, At, LittleEndian;
    AddThree(Plus(x, At(d, 24)), a, b, c);
    Sum4(a, b, c, d);
    PlusAssociates(x, At(d, 24), LittleEndian(a, b, c, 0));
  }

  /** The same four additions in the ascending order of the block loop. */
  lemma AddAscending(x: bv32, a: bv8, b: bv8, c: bv8, d: bv8)
    ensures Plus(Plus(Plus(Plus(x, At(a, 0)), At(b, 8)), At(c, 16)), At(d, 24)) == Plus(x, LittleEndian(a, b, c, d))
  {
    hide Plus, At, LittleEndian;
    var w2, w3 := LittleEndian(a, b, 0, 0), LittleEndian(a, b, c, 0);
    PlusAssociates(x, At(a, 0), At(b, 8));
    PlusCommutes(At(a, 0), At(b, 8));
    Sum2(a, b);
    PlusAssociates(x, w2, At(c, 16));
    PlusCommutes(w2, At(c, 16));
    Sum3(a, b, c);
    PlusAssociates(x, w3, At(d, 24));
    PlusCommutes(w3, At(d, 24));
    Sum4(a, b, c, d);
  }

  // ---------- one block of memory ----------

  lemma RunStep(s: Regs, mem: Bytes, k: nat, n: nat)
    requires n > 12 && k + n <= |mem|
    ensures Run(s, mem[k..k + n]) == Run(Mix(AddBlock(s, mem[k..k + 12])), mem[k + 12..k + n])
  {
    hide AddBlock, Mix;
    var rest := mem[k..k + n];
    assert rest[..12] == mem[k..k + 12] && rest[12..] == mem[k + 12..k + n];
  }

  lemma RunLast(s: Regs, mem: Bytes, k: nat, n: nat)
    requires n <= 12 && k + n <= |mem|
    ensures Run(s, mem[k..k + n]) == AddBlock(s, mem[k..k + n])
  {
    hide AddBlock, Mix;
  }

  /** The words of a partial block are the words of its parts; a word with no bytes adds nothing. */
  lemma BlockByWords(s: Regs, mem: Bytes, k: nat, n: nat)
    requires 1 <= n <= 12 && k + n <= |mem|
    ensures var r := AddBlock(s, mem[k..k + n]);
            && r.a == Plus(s.a, WordAt(mem[k..k + Least(n, 4)], 0))
            && r.b == (if n > 4 then Plus(s.b, WordAt(mem[k + 4..k + Least(n, 8)], 0)) else s.b)
            && r.c == (if n > 8 then Plus(s.c, WordAt(mem[k + 8..k + n], 0)) else s.c)
  {
    hide Plus, LittleEndian;
    NoBytes(s.b);
    NoBytes(s.c);
  }

  lemma WholeWordAt(mem: Bytes, i: nat)
    requires i + 4 <= |mem|
    ensures WordAt(mem[i..i + 4], 0) == Load32(mem, i)
  {}

  // ---------- the three loops ----------

  /** Address divisible by 4: words, and a masked load for the last partial word.  Memory
      is readable in whole words, so the load may run past the key but not past memory. */
  method Aligned(mem: Bytes, addr: nat, len: nat) returns (r: bv32)
    requires addr % 4 == 0 && |mem| % 4 == 0 && addr + len <= |mem|
    ensures r == JenkinsSpec(mem[addr..addr + len])
  {
    hide Plus, LittleEndian, Load32, AddBlock, Run, Mix, Final, Init;
    ghost var key := mem[addr..addr + len];
    var s := Init(len);
    var k, n := addr, len;
    while n > 12
      invariant 0 <= n <= len && k + n == addr + len && k % 4 == 0
      invariant n == 0 ==> len == 0 && s == Init(0)
      invariant Run(s, mem[k..k + n]) == Run(Init(len), key)
    {
      RunStep(s, mem, k, n);
      BlockByWords(s, mem, k, 12);
      WholeWordAt(mem, k);
      WholeWordAt(mem, k + 4);
      WholeWordAt(mem, k + 8);
      s := Regs(Plus(s.a, Load32(mem, k)), Plus(s.b, Load32(mem, k + 4)), Plus(s.c, Load32(mem, k + 8)));
      s := Mix(s);
      n := n - 12;
      k := k + 12;
    }
    if n == 0 {
      return s.c;
    }
    RunLast(s, mem, k, n);
    s := AlignedTail(s, mem, k, n);
    return Final(s).c;
  }

  /** A word load of which n bytes belong to the key. */
  method AddPartWord(x: bv32, mem: Bytes, i: nat, n: nat) returns (r: bv32)
    requires 1 <= n <= 4 && i + 4 <= |mem|
    ensures r == Plus(x, WordAt(mem[i..i + n], 0))
  {
    hide Plus, LittleEndian, Mask24, Mask16, Mask8;
    var w := Load32(mem, i);
    if n == 4 {
      r := Plus(x, w);
    } else if n == 3 {
      r := Plus(x, Mask24(w));
      Masked24(mem[i], mem[i + 1], mem[i + 2], mem[i + 3]);
    } else if n == 2 {
      r := Plus(x, Mask16(w));
      Masked16(mem[i], mem[i + 1], mem[i + 2], mem[i + 3]);
    } else {
      r := Plus(x, Mask8(w));
      Masked8(mem[i], mem[i + 1], mem[i + 2], mem[i + 3]);
    }
  }

  method AlignedTail(s: Regs, mem: Bytes, k: nat, n: nat) returns (r: Regs)
    requires k % 4 == 0 && |mem| % 4 == 0 && k + n <= |mem| && 1 <= n <= 12
    ensures r == AddBlock(s, mem[k..k + n])
  {
    hide Plus, LittleEndian, WordAt, Load32, AddBlock;
    var a, b, c := s.a, s.b, s.c;
    BlockByWords(s, mem, k, n);
    if n > 8 {
      c := AddPartWord(c, mem, k + 8, n - 8);
      b := AddPartWord(b, mem, k + 4, 4);
      a := AddPartWord(a, mem, k, 4);
    } else if n > 4 {
      b := AddPartWord(b, mem, k + 4, n - 4);
      a := AddPartWord(a, mem, k, 4);
    } else {
      a := AddPartWord(a, mem, k, n);
    }
    return Regs(a, b, c);
  }

  /** Address divisible by 2 only: pairs of 16-bit loads. */
  method HalfAligned(mem: Bytes, addr: nat, len: nat) returns (r: bv32)
    requires addr + len <= |mem|
    ensures r == JenkinsSpec(mem[addr..addr + len])
  {
    hide Plus, LittleEndian, Load32, AddBlock, Run, Mix, Final, Init;
    ghost var key := mem[addr..addr + len];
    var s := Init(len);
    var k, n := addr, len;
    while n > 12
      invariant 0 <= n <= len && k + n == addr + len
      invariant n == 0 ==> len == 0 && s == Init(0)
      invariant Run(s, mem[k..k + n]) == Run(Init(len), key)
    {
      RunStep(s, mem, k, n);
      BlockByWords(s, mem, k, 12);
      WholeWordAt(mem, k);
      WholeWordAt(mem, k + 4);
      WholeWordAt(mem, k + 8);
      var a := AddPair(s.a, mem, k);
      var b := AddPair(s.b, mem, k + 4);
      var c := AddPair(s.c, mem, k + 8);
      s := Mix(Regs(a, b, c));
      n := n - 12;
      k := k + 12;
    }
    if n == 0 {
      return s.c;
    }
    RunLast(s, mem, k, n);
    s := HalfAlignedTail(s, mem, k, n);
    return Final(s).c;
  }

  method AddPair(x: bv32, mem: Bytes, i: nat) returns (r: bv32)
    requires i + 4 <= |mem|
    ensures r == Plus(x, Load32(mem, i))
  {
    hide Plus, LittleEndian, Word16, Low16, High16;
    HalvesSum(mem[i], mem[i + 1], mem[i + 2], mem[i + 3]);
    return Plus(x, Plus(Low16(Load16(mem, i)), High16(Load16(mem, i + 2))));
  }

  /** The bytes of one word when n of its bytes belong to the key. */
  method AddPartHalves(x: bv32, mem: Bytes, i: nat, n: nat) returns (r: bv32)
    requires 1 <= n <= 4 && i + n <= |mem|
    ensures r == Plus(x, WordAt(mem[i..i + n], 0))
  {
    hide Plus, LittleEndian, Word16, Low16, High16, At;
    if n == 4 {
      r := AddPair(x, mem, i);
    } else if n == 3 {
      r := Plus(x, At(mem[i + 2], 16));
      r := Plus(r, Low16(Load16(mem, i)));
      AddThree(x, mem[i], mem[i + 1], mem[i + 2]);
    } else if n == 2 {
      r := Plus(x, Low16(Load16(mem, i)));
      OneHalf(mem[i], mem[i + 1]);
    } else {
      r := Plus(x, At(mem[i], 0));
      Sum1(mem[i]);
    }
  }

  method HalfAlignedTail(s: Regs, mem: Bytes, k: nat, n: nat) returns (r: Regs)
    requires k + n <= |mem| && 1 <= n <= 12
    ensures r == AddBlock(s, mem[k..k + n])
  {
    hide Plus, LittleEndian, WordAt, Load32, AddBlock;
    var a, b, c := s.a, s.b, s.c;
    BlockByWords(s, mem, k, n);
    if n > 8 {
      c := AddPartHalves(c, mem, k + 8, n - 8);
      b := AddPartHalves(b, mem, k + 4, 4);
      a := AddPartHalves(a, mem, k, 4);
    } else if n > 4 {
      b := AddPartHalves(b, mem, k + 4, n - 4);
      a := AddPartHalves(a, mem, k, 4);
    } else {
      a := AddPartHalves(a, mem, k, n);
    }
    return Regs(a, b, c);
  }

  /** Any address: one byte at a time. */
  method ByteWise(mem: Bytes, addr: nat, len: nat) returns (r: bv32)
    requires addr + len <= |mem|
    ensures r == JenkinsSpec(mem[addr..addr + len])
  {
    hide Plus, LittleEndian, Load32, AddBlock, Run, Mix, Final, Init;
    ghost var key := mem[addr..addr + len];
    var s := Init(len);
    var k, n := addr, len;
    while n > 12
      invariant 0 <= n <= len && k + n == addr + len
      invariant n == 0 ==> len == 0 && s == Init(0)
      invariant Run(s, mem[k..k + n]) == Run(Init(len), key)
    {
      RunStep(s, mem, k, n);
      BlockByWords(s, mem, k, 12);
      WholeWordAt(mem, k);
      WholeWordAt(mem, k + 4);
      WholeWordAt(mem, k + 8);
      var a := AddBytes(s.a, mem, k);
      var b := AddBytes(s.b, mem, k + 4);
      var c := AddBytes(s.c, mem, k + 8);
      s := Mix(Regs(a, b, c));
      n := n - 12;
      k := k + 12;
    }
    if n == 0 {
      return s.c;
    }
    RunLast(s, mem, k, n);
    s := ByteWiseTail(s, mem, k, n);
    return Final(s).c;
  }

  method AddBytes(x: bv32, mem: Bytes, i: nat) returns (r: bv32)
    requires i + 4 <= |mem|
    ensures r == Plus(x, Load32(mem, i))
  {
    hide Plus, LittleEndian, At;
    r := Plus(x, At(mem[i], 0));
    r := Plus(r, At(mem[i + 1], 8));
    r := Plus(r, At(mem[i + 2], 16));
    r := Plus(r, At(mem[i + 3], 24));
    AddAscending(x, mem[i], mem[i + 1], mem[i + 2], mem[i + 3]);
  }

  /** The fall-through additions for one word when n of its bytes belong to the key. */
  method AddPartBytes(x: bv32, mem: Bytes, i: nat, n: nat) returns (r: bv32)
    requires 1 <= n <= 4 && i + n <= |mem|
    ensures r == Plus(x, WordAt(mem[i..i + n], 0))
  {
    hide Plus, LittleEndian, At;
    r := x;
    if n >= 4 { r := Plus(r, At(mem[i + 3], 24)); }
    if n >= 3 { r := Plus(r, At(mem[i + 2], 16)); }
    if n >= 2 { r := Plus(r, At(mem[i + 1], 8)); }
    r := Plus(r, At(mem[i], 0));
    if n == 4 { AddFour(x, mem[i], mem[i + 1], mem[i + 2], mem[i + 3]); }
    if n == 3 { AddThree(x, mem[i], mem[i + 1], mem[i + 2]); }
    if n == 2 { AddTwo(x, mem[i], mem[i + 1]); }
    if n == 1 { Sum1(mem[i]); }
  }

  method ByteWiseTail(s: Regs, mem: Bytes, k: nat, n: nat) returns (r: Regs)
    requires k + n <= |mem| && 1 <= n <= 12
    ensures r == AddBlock(s, mem[k..k + n])
  {
    hide Plus, LittleEndian, WordAt, Load32, AddBlock;
    var a, b, c := s.a, s.b, s.c;
    BlockByWords(s, mem, k, n);
    if n > 8 {
      c := AddPartBytes(c, mem, k + 8, n - 8);
      b := AddPartBytes(b, mem, k + 4, 4);
      a := AddPartBytes(a, mem, k, 4);
    } else if n > 4 {
      b := AddPartBytes(b, mem, k + 4, n - 4);
      a := AddPartBytes(a, mem, k, 4);
    } else {
      a := AddPartBytes(a, mem, k, n);
    }
    return Regs(a, b, c);
  }

  /** The dispatch on the address: the hash is a function of the key alone, whatever its
      address and whatever lies around it in memory. */
  method Jenkins(mem: Bytes, addr: nat, len: nat) returns (r: bv32)
    requires |mem| % 4 == 0 && addr + len <= |mem|
    ensures r == JenkinsSpec(mem[addr..addr + len])
  {
    hide JenkinsSpec;
    if addr % 4 == 0 {
      r := Aligned(mem, addr, len);
    } else if addr % 2 == 0 {
      r := HalfAligned(mem, addr, len);
    } else {
      r := ByteWise(mem, addr, len);
    }
  }
}
