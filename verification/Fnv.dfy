/** The FNV functions of src/gorm_hash.cc.  The source reads the key through a signed
    char, so a byte at or above 0x80 enters the hash sign-extended. */
module Fnv {
  import opened Words

  type Key = seq<bv8>

  function Sign64(b: bv8): bv64 {
    if b & 0x80 != 0 then 0xffff_ffff_ffff_ff00 | (b as bv64) else b as bv64
  }

  function Sign32(b: bv8): bv32 {
    if b & 0x80 != 0 then 0xffff_ff00 | (b as bv32) else b as bv32
  }

  /** A byte from 0x80 on enters as the number 256 below it. */
  lemma SignExtends(b: bv8)
    ensures Sign64(b) == if b < 0x80 then b as bv64 else (b as bv64) - 0x100
    ensures Sign32(b) == if b < 0x80 then b as bv32 else (b as bv32) - 0x100
  {}

  function Low(h: bv64): bv32 {
    (h & 0xffff_ffff) as bv32
  }

  // ---------- the 64-bit definitions ----------

  const INIT64: bv64 := 0xcbf2_9ce4_8422_2325

  function Mul64(h: bv64): bv64 { h * 0x100_0000_01b3 }
  function Mul32(h: bv32): bv32 { h * 0x1b3 }
  function Xor64(h: bv64, v: bv64): bv64 { h ^ v }

  /** FNV-1a: exclusive-or, then multiply. */
  function Fnv1aRun(h: bv64, key: Key): bv64
    decreases |key|
  {
    if key == [] then h else Fnv1aRun(Mul64(Xor64(h, Sign64(key[0]))), key[1..])
  }

  /** FNV-1: multiply, then exclusive-or. */
  function Fnv1Run(h: bv64, key: Key): bv64
    decreases |key|
  {
    if key == [] then h else Fnv1Run(Xor64(Mul64(h), Sign64(key[0])), key[1..])
  }

  // ---------- the 32-bit loop ----------

  function NarrowRun(h: bv32, key: Key): bv32
    decreases |key|
  {
    if key == [] then h else NarrowRun(Mul32(Xor(h, Sign32(key[0]))), key[1..])
  }

  /** Equality under a name: it keeps the solver from rewriting products across it. */
  predicate Same64(x: bv64, y: bv64) { x == y }

  lemma LowIs(h: bv64)
    ensures Same(Low(h), (h & 0xffff_ffff) as bv32)
  {}

  lemma Mul32Is(x: bv32)
    ensures Same(Mul32(x), x * 0x1b3) && Same(x * 0x1b3, Mul32(x))
  {}

  lemma Mul64Is(h: bv64)
    ensures Same64(Mul64(h), h * 0x100_0000_01b3)
  {}

  lemma SameTransitive(x: bv32, y: bv32, z: bv32)
    requires Same(x, y) && Same(y, z)
    ensures Same(x, z)
  {}

  lemma LeftSide(h: bv64)
    ensures Same(Low(Mul64(h)), Low(h * 0x100_0000_01b3))
  {
    hide Low, Mul64;
    Mul64Is(h);
  }

  lemma RightSide(h: bv64)
    ensures Same(Mul32((h & 0xffff_ffff) as bv32), Mul32(Low(h)))
  {
    hide Low, Mul32;
    LowIs(h);
  }

  lemma TruncatedProduct(h: bv64)
    ensures Same(Low(h * 0x100_0000_01b3), Mul32((h & 0xffff_ffff) as bv32))
  {}

  /** The low half of a 64-bit product by the FNV prime is a 32-bit product. */
  lemma LowOfMul(h: bv64)
    ensures Same(Low(Mul64(h)), Mul32(Low(h)))
  {
    hide Low, Mul32, Mul64, Same;
    LeftSide(h);
    TruncatedProduct(h);
    RightSide(h);
    SameTransitive(Low(Mul64(h)), Low(h * 0x100_0000_01b3), Mul32((h & 0xffff_ffff) as bv32));
    SameTransitive(Low(Mul64(h)), Mul32((h & 0xffff_ffff) as bv32), Mul32(Low(h)));
  }

  lemma LowOfXor(h: bv64, v: bv64)
    ensures Low(Xor64(h, v)) == Xor(Low(h), Low(v))
  {}

  lemma LowOfSign(b: bv8)
    ensures Low(Sign64(b)) == Sign32(b)
  {}

  /** Truncating every step gives the truncation of the whole run. */
  lemma {:induction false} NarrowIsLow(h: bv64, key: Key)
    ensures NarrowRun(Low(h), key) == Low(Fnv1aRun(h, key))
    decreases |key|
  {
    hide Low, Mul64, Mul32, Xor64, Xor, Sign64, Sign32;
    if key != [] {
      var v := Sign64(key[0]);
      LowOfSign(key[0]);
      LowOfXor(h, v);
      LowOfMul(Xor64(h, v));
      NarrowIsLow(Mul64(Xor64(h, v)), key[1..]);
    }
  }

  /** The source's uint32 loop returns the low half of the 64-bit FNV-1a hash. */
  method Fnv1a64(key: Key) returns (hash: bv32)
    ensures hash == Low(Fnv1aRun(INIT64, key))
  {
    hide Mul64, Mul32, Xor64, Xor, Sign64, Sign32;
    hash := 0x8422_2325;
    assert hash == Low(INIT64);
    hide Low;
    var x := 0;
    while x < |key|
      invariant 0 <= x <= |key|
      invariant NarrowRun(hash, key[x..]) == NarrowRun(Low(INIT64), key)
    {
      var val := Sign32(key[x]);
      hash := Xor(hash, val);
      hash := Mul32(hash);
      x := x + 1;
    }
    NarrowIsLow(INIT64, key);
  }

  method Fnv164(key: Key) returns (r: bv32)
    ensures r == Low(Fnv1Run(INIT64, key))
  {
    hide Mul64, Xor64, Sign64, Low;
    var hash := INIT64;
    var x := 0;
    while x < |key|
      invariant 0 <= x <= |key|
      invariant Fnv1Run(hash, key[x..]) == Fnv1Run(INIT64, key)
    {
      hash := Mul64(hash);
      hash := Xor64(hash, Sign64(key[x]));
      x := x + 1;
    }
    return Low(hash);
  }

  // ---------- one changed byte is always seen ----------

  /** The multiplier is odd. */
  lemma OddFactor(x: bv32, y: bv32)
    requires Same(x * 0x1b3, y * 0x1b3)
    ensures x == y
  {}

  lemma SameProducts(x: bv32, y: bv32)
    requires Same(Mul32(x), Mul32(y))
    ensures Same(x * 0x1b3, y * 0x1b3)
  {
    hide Mul32;
    Mul32Is(x);
    Mul32Is(y);
  }

  lemma Mul32Injective(x: bv32, y: bv32)
    ensures Mul32(x) == Mul32(y) ==> x == y
  {
    hide Mul32;
    if Mul32(x) == Mul32(y) {
      SameProducts(x, y);
      OddFactor(x, y);
    }
  }

  lemma XorInjective(h: bv32, h': bv32, b: bv8, b': bv8)
    ensures Xor(h, Sign32(b)) == Xor(h', Sign32(b)) ==> h == h'
    ensures Xor(h, Sign32(b)) == Xor(h, Sign32(b')) ==> b == b'
  {}

  lemma {:induction false} NarrowRunInjective(h: bv32, h': bv32, key: Key)
    ensures NarrowRun(h, key) == NarrowRun(h', key) ==> h == h'
    decreases |key|
  {
    hide Mul32, Xor, Sign32;
    if key != [] {
      var v := Sign32(key[0]);
      NarrowRunInjective(Mul32(Xor(h, v)), Mul32(Xor(h', v)), key[1..]);
      Mul32Injective(Xor(h, v), Xor(h', v));
      XorInjective(h, h', key[0], 0);
    }
  }

  lemma {:induction false} NarrowAppend(h: bv32, s: Key, t: Key)
    ensures NarrowRun(h, s + t) == NarrowRun(NarrowRun(h, s), t)
    decreases |s|
  {
    hide Mul32, Xor, Sign32;
    if s == [] {
      assert s + t == t;
    } else {
      assert (s + t)[1..] == s[1..] + t;
      NarrowAppend(Mul32(Xor(h, Sign32(s[0]))), s[1..], t);
    }
  }

  /** Keys that differ in exactly one byte never share an Fnv1a64 value. */
  lemma OneByteSeparates(pre: Key, b: bv8, b': bv8, post: Key)
    requires b != b'
    ensures Low(Fnv1aRun(INIT64, pre + [b] + post)) != Low(Fnv1aRun(INIT64, pre + [b'] + post))
  {
    hide Low, Mul64, Mul32, Xor64, Xor, Sign64, Sign32;
    var s := NarrowRun(Low(INIT64), pre);
    NarrowIsLow(INIT64, pre + [b] + post);
    NarrowIsLow(INIT64, pre + [b'] + post);
    assert pre + [b] + post == pre + ([b] + post) && pre + [b'] + post == pre + ([b'] + post);
    NarrowAppend(Low(INIT64), pre, [b] + post);
    NarrowAppend(Low(INIT64), pre, [b'] + post);
    assert ([b] + post)[1..] == post && ([b'] + post)[1..] == post;
    var u, u' := Xor(s, Sign32(b)), Xor(s, Sign32(b'));
    NarrowRunInjective(Mul32(u), Mul32(u'), post);
    Mul32Injective(u, u');
    XorInjective(s, s, b, b');
  }
}
