/** Murmur of src/gorm_hash.cc, and why it separates keys that differ in one block. */
module Murmur {
  import opened Words

  type Key = seq<bv8>

  // Word operations under a name, so that proofs can treat them as symbols.
  function Mul(x: bv32): bv32 { x * 0x5bd1e995 }
  function Shr13(x: bv32): bv32 { x >> 13 }
  function Shr15(x: bv32): bv32 { x >> 15 }
  function Shr24(x: bv32): bv32 { x >> 24 }

  /** A 32-bit load on a little-endian machine. */
  function Load32(key: Key, i: nat): bv32
    requires i + 4 <= |key|
  {
    LittleEndian(key[i], key[i + 1], key[i + 2], key[i + 3])
  }

  /** The length is truncated to 32 bits, multiplied, and its own bits are exclusive-ored in. */
  function Seed(len: nat): bv32 {
    SeedWord((len % 0x1_0000_0000) as bv32)
  }

  function SeedWord(n: bv32): bv32 { Xor(Product(n), n) }
  function Product(n: bv32): bv32 { 0xdeadbeef * n }

  lemma ProductOfNext(n: bv32)
    ensures Product(n + 1) == Product(n) + 0xdeadbeef
  {}

  lemma NoSeed()
    ensures SeedWord(0) == 0
  {}

  /** Without the length's own bits the seed grows by 0xdeadbeef with each byte, from 0. */
  lemma SeedGrows(n: bv32)
    ensures SeedWord(0) == 0
    ensures Xor(SeedWord(n + 1), n + 1) == Xor(SeedWord(n), n) + 0xdeadbeef
  {
    hide Xor, Product;
    NoSeed();
    ProductOfNext(n);
    XorCancels(Product(n), n);
    XorCancels(Product(n + 1), n + 1);
  }

  function MixKey(k: bv32): bv32 {
    Mul(Xor(Mul(k), Shr24(Mul(k))))
  }

  function MixBlock(h: bv32, k: bv32): bv32 {
    Xor(Mul(h), MixKey(k))
  }

  /** What the last one to three bytes add to the hash before it is multiplied. */
  function TailWord(t: Key): bv32
    requires 1 <= |t| < 4
  {
    LittleEndian(t[0], if |t| > 1 then t[1] else 0, if |t| > 2 then t[2] else 0, 0)
  }

  type Tail = t: Key | |t| < 4

  function MixTail(h: bv32, t: Tail): bv32 {
    if t == [] then h else Mul(Xor(h, TailWord(t)))
  }

  function Finish(h: bv32): bv32 {
    var h1 := Mul(Xor(h, Shr13(h)));
    Xor(h1, Shr15(h1))
  }

  function Run(h: bv32, key: Key): bv32
    decreases |key|
  {
    if |key| < 4 then MixTail(h, key) else Run(MixBlock(h, Load32(key, 0)), key[4..])
  }

  /** Murmur as a function of the key: seed, whole blocks, tail, finish. */
  function MurmurSpec(key: Key): bv32 {
    Finish(Run(Seed(|key|), key))
  }

  // ---------- the source's loop and its fall-through switch ----------

  lemma Tail1(h: bv32, a: bv8)
    ensures Xor(h, LittleEndian(a, 0, 0, 0)) == h ^ (a as bv32)
  {}

  lemma Tail2(h: bv32, a: bv8, b: bv8)
    ensures Xor(h, LittleEndian(a, b, 0, 0)) == (h ^ ((b as bv32) << 8)) ^ (a as bv32)
  {}

  lemma Tail3(h: bv32, a: bv8, b: bv8, c: bv8)
    ensures Xor(h, LittleEndian(a, b, c, 0)) == ((h ^ ((c as bv32) << 16)) ^ ((b as bv32) << 8)) ^ (a as bv32)
  {}

  method TailBytes(h: bv32, t: Tail) returns (r: bv32)
    ensures r == MixTail(h, t)
  {
    hide Mul, Xor, LittleEndian;
    r := h;
    if |t| == 3 {
      Tail3(h, t[0], t[1], t[2]);
      r := r ^ ((t[2] as bv32) << 16);
    }
    if |t| >= 2 {
      if |t| == 2 { Tail2(h, t[0], t[1]); }
      r := r ^ ((t[1] as bv32) << 8);
    }
    if |t| >= 1 {
      if |t| == 1 { Tail1(h, t[0]); }
      r := r ^ (t[0] as bv32);
      r := Mul(r);
    }
  }

  method Murmur(key: Key) returns (r: bv32)
    ensures r == MurmurSpec(key)
  {
    hide Mul, Xor, Shr13, Shr15, Shr24, LittleEndian, Seed;
    var h := Seed(|key|);
    var data, len := 0, |key|;
    while len >= 4
      invariant 0 <= data <= |key| && len == |key| - data
      invariant Run(h, key[data..]) == Run(Seed(|key|), key)
    {
      assert key[data..][4..] == key[data + 4..];
      var k := Load32(key, data);
      k := Mul(k);
      k := Xor(k, Shr24(k));
      k := Mul(k);
      h := Mul(h);
      h := Xor(h, k);
      data := data + 4;
      len := len - 4;
    }
    h := TailBytes(h, key[data..]);
    h := Xor(h, Shr13(h));
    h := Mul(h);
    h := Xor(h, Shr15(h));
    return h;
  }

  // ---------- every mixing step can be undone ----------

  lemma MulIs(x: bv32)
    ensures Same(Mul(x), x * 0x5bd1e995)
  {}

  /** The multiplier is odd. */
  lemma OddFactor(x: bv32, y: bv32)
    requires Same(x * 0x5bd1e995, y * 0x5bd1e995)
    ensures x == y
  {}

  lemma SameProducts(x: bv32, y: bv32)
    requires Same(Mul(x), Mul(y))
    ensures Same(x * 0x5bd1e995, y * 0x5bd1e995)
  {
    hide Mul;
    MulIs(x);
    MulIs(y);
  }

  lemma MulInjective(x: bv32, y: bv32)
    ensures Mul(x) == Mul(y) ==> x == y
  {
    hide Mul;
    if Mul(x) == Mul(y) {
      SameProducts(x, y);
      OddFactor(x, y);
    }
  }

  lemma XorInjective(x: bv32, y: bv32, z: bv32)
    ensures Xor(x, z) == Xor(y, z) ==> x == y
    ensures Xor(z, x) == Xor(z, y) ==> x == y
  {}

  lemma XorCancels(x: bv32, y: bv32)
    ensures Xor(Xor(x, y), y) == x && Xor(y, 0) == y
  {}

  lemma XorAssociates(x: bv32, y: bv32, z: bv32)
    ensures Xor(Xor(x, y), z) == Xor(x, Xor(y, z))
  {}

  lemma Telescope(x: bv32, s1: bv32, s2: bv32)
    ensures Xor(Xor(Xor(x, s1), Xor(s1, s2)), Xor(s2, 0)) == x
  {
    hide Xor;
    XorCancels(x, s1);
    XorCancels(x, s2);
    XorAssociates(Xor(x, s1), s1, s2);
  }

  lemma Shr13Linear(x: bv32, y: bv32)
    ensures Shr13(Xor(x, y)) == Xor(Shr13(x), Shr13(y))
  {}

  lemma Shr15Linear(x: bv32, y: bv32)
    ensures Shr15(Xor(x, y)) == Xor(Shr15(x), Shr15(y))
  {}

  lemma ShiftedOut(x: bv32)
    ensures Shr13(Shr13(Shr13(x))) == 0 && Shr15(Shr15(Shr15(x))) == 0
  {}

  lemma Undo13(x: bv32)
    ensures var d := Xor(x, Shr13(x)); Xor(Xor(d, Shr13(d)), Shr13(Shr13(d))) == x
  {
    hide Xor, Shr13, Shr15;
    Shr13Linear(x, Shr13(x));
    Shr13Linear(Shr13(x), Shr13(Shr13(x)));
    ShiftedOut(x);
    Telescope(x, Shr13(x), Shr13(Shr13(x)));
  }

  lemma Undo15(x: bv32)
    ensures var d := Xor(x, Shr15(x)); Xor(Xor(d, Shr15(d)), Shr15(Shr15(d))) == x
  {
    hide Xor, Shr13, Shr15;
    Shr15Linear(x, Shr15(x));
    Shr15Linear(Shr15(x), Shr15(Shr15(x)));
    ShiftedOut(x);
    Telescope(x, Shr15(x), Shr15(Shr15(x)));
  }

  lemma Undo24(x: bv32, y: bv32)
    requires Xor(x, Shr24(x)) == Xor(y, Shr24(y))
    ensures x == y
  {}

  lemma ShiftMixInjective(x: bv32, y: bv32)
    ensures Xor(x, Shr13(x)) == Xor(y, Shr13(y)) ==> x == y
    ensures Xor(x, Shr15(x)) == Xor(y, Shr15(y)) ==> x == y
    ensures Xor(x, Shr24(x)) == Xor(y, Shr24(y)) ==> x == y
  {
    hide Xor, Shr13, Shr15, Shr24;
    Undo13(x);
    Undo13(y);
    Undo15(x);
    Undo15(y);
    if Xor(x, Shr24(x)) == Xor(y, Shr24(y)) { Undo24(x, y); }
  }

  lemma MixKeyInjective(k: bv32, k': bv32)
    ensures MixKey(k) == MixKey(k') ==> k == k'
  {
    hide Mul, Xor, Shr24;
    MulInjective(k, k');
    ShiftMixInjective(Mul(k), Mul(k'));
    MulInjective(Xor(Mul(k), Shr24(Mul(k))), Xor(Mul(k'), Shr24(Mul(k'))));
  }

  lemma MixBlockInjective(h: bv32, h': bv32, k: bv32, k': bv32)
    ensures MixBlock(h, k) == MixBlock(h', k) ==> h == h'
    ensures MixBlock(h, k) == MixBlock(h, k') ==> k == k'
  {
    hide Mul, Xor, MixKey;
    XorInjective(Mul(h), Mul(h'), MixKey(k));
    XorInjective(MixKey(k), MixKey(k'), Mul(h));
    MulInjective(h, h');
    MixKeyInjective(k, k');
  }

  lemma MixTailInjective(h: bv32, h': bv32, t: Tail)
    ensures MixTail(h, t) == MixTail(h', t) ==> h == h'
  {
    hide Mul, Xor, LittleEndian;
    if t != [] {
      MulInjective(Xor(h, TailWord(t)), Xor(h', TailWord(t)));
      XorInjective(h, h', TailWord(t));
    }
  }

  lemma FinishInjective(h: bv32, h': bv32)
    ensures Finish(h) == Finish(h') ==> h == h'
  {
    hide Mul, Xor, Shr13, Shr15;
    var m, m' := Xor(h, Shr13(h)), Xor(h', Shr13(h'));
    ShiftMixInjective(Mul(m), Mul(m'));
    MulInjective(m, m');
    ShiftMixInjective(h, h');
  }

  lemma TailWordInjective(t: Key, t': Key)
    requires 1 <= |t| == |t'| < 4 && t != t'
    ensures TailWord(t) != TailWord(t')
  {
    hide LittleEndian;
    if TailWord(t) == TailWord(t') {
      LittleEndianInjective(t[0], if |t| > 1 then t[1] else 0, if |t| > 2 then t[2] else 0, 0,
                    t'[0], if |t| > 1 then t'[1] else 0, if |t| > 2 then t'[2] else 0, 0);
    }
  }

  /** For a fixed remainder of the key the whole run is injective in the hash so far. */
  lemma {:induction false} RunInjective(h: bv32, h': bv32, key: Key)
    ensures Run(h, key) == Run(h', key) ==> h == h'
    decreases |key|
  {
    hide MixBlock, LittleEndian, MixTail;
    if |key| < 4 {
      MixTailInjective(h, h', key);
    } else {
      var k := Load32(key, 0);
      RunInjective(MixBlock(h, k), MixBlock(h', k), key[4..]);
      MixBlockInjective(h, h', k, k);
    }
  }

  function Prefix(h: bv32, pre: Key): bv32
    requires |pre| % 4 == 0
    decreases |pre|
  {
    if pre == [] then h else Prefix(MixBlock(h, Load32(pre, 0)), pre[4..])
  }

  lemma {:induction false} RunPrefix(h: bv32, pre: Key, rest: Key)
    requires |pre| % 4 == 0
    ensures Run(h, pre + rest) == Run(Prefix(h, pre), rest)
    decreases |pre|
  {
    hide MixBlock, LittleEndian, MixTail;
    if pre == [] {
      assert pre + rest == rest;
    } else {
      assert (pre + rest)[4..] == pre[4..] + rest;
      RunPrefix(MixBlock(h, Load32(pre, 0)), pre[4..], rest);
    }
  }

  lemma RunBlock(h: bv32, pre: Key, u: Key, post: Key)
    requires |pre| % 4 == 0 && |u| == 4
    ensures Run(h, pre + u + post) == Run(MixBlock(Prefix(h, pre), Load32(u, 0)), post)
  {
    hide MixBlock, LittleEndian, MixTail;
    assert pre + u + post == pre + (u + post);
    RunPrefix(h, pre, u + post);
    assert (u + post)[4..] == post;
    assert Load32(u + post, 0) == Load32(u, 0);
  }

  /** Keys of equal length that differ only in one aligned four-byte block hash differently. */
  lemma BlockSeparates(pre: Key, u: Key, v: Key, post: Key)
    requires |pre| % 4 == 0 && |u| == |v| == 4 && u != v
    ensures MurmurSpec(pre + u + post) != MurmurSpec(pre + v + post)
  {
    hide MixBlock, Load32, MixTail, Finish, Seed;
    var h := Seed(|pre + u + post|);
    var s := Prefix(h, pre);
    var ku, kv := Load32(u, 0), Load32(v, 0);
    RunBlock(h, pre, u, post);
    RunBlock(h, pre, v, post);
    LoadInjective(u, v);
    MixBlockInjective(s, s, ku, kv);
    RunInjective(MixBlock(s, ku), MixBlock(s, kv), post);
    FinishInjective(Run(MixBlock(s, ku), post), Run(MixBlock(s, kv), post));
  }

  lemma LoadInjective(u: Key, v: Key)
    requires |u| == |v| == 4 && u != v
    ensures Load32(u, 0) != Load32(v, 0)
  {
    hide LittleEndian;
    if Load32(u, 0) == Load32(v, 0) {
      LittleEndianInjective(u[0], u[1], u[2], u[3], v[0], v[1], v[2], v[3]);
    }
  }

  /** Likewise for keys that differ only in the one to three bytes after the last whole block. */
  lemma TailSeparates(pre: Key, u: Key, v: Key)
    requires |pre| % 4 == 0 && 1 <= |u| == |v| < 4 && u != v
    ensures MurmurSpec(pre + u) != MurmurSpec(pre + v)
  {
    hide MixBlock, Mul, Xor, LittleEndian, TailWord, Finish, Seed;
    var s := Prefix(Seed(|pre + u|), pre);
    RunPrefix(Seed(|pre + u|), pre, u);
    RunPrefix(Seed(|pre + u|), pre, v);
    TailWordInjective(u, v);
    XorInjective(TailWord(u), TailWord(v), s);
    MulInjective(Xor(s, TailWord(u)), Xor(s, TailWord(v)));
    FinishInjective(MixTail(s, u), MixTail(s, v));
  }
}
