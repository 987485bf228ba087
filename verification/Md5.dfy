/** The streaming MD5 of src/gorm_hash.cc: MD5_Init, MD5_Update, MD5_Final. */
module Md5 {
  import opened Basics
  import opened Md5Block
  import opened Words

  type Bytes = seq<bv8>

  // ---------- RFC 1321, sections 3.1 to 3.5 ----------

  /** Section 3.3. */
  const IV: Regs := Regs(0x67452301, 0xefcdab89, 0x98badcfe, 0x10325476)

  /** Chaining value after the whole blocks of msg. */
  function Fold(r: Regs, msg: Bytes): Regs
    decreases |msg|
  {
    if |msg| < 64 then r else Fold(Compress(r, msg[..64]), msg[64..])
  }

  function ByteOf(n: nat, k: nat): bv8 {
    if k == 0 then (n % 256) as bv8 else ByteOf(n / 256, k - 1)
  }

  /** The low count bytes of n, low-order byte first. */
  function NumberBytes(n: nat, count: nat): (s: Bytes)
    ensures |s| == count
  {
    seq(count, k requires 0 <= k < count => ByteOf(n, k))
  }

  /** Zero bytes needed after the 0x80 to reach 56 modulo 64. */
  function ZeroCount(len: nat): (k: nat)
    ensures (len + 1 + k) % 64 == 56 && (len + 9 + k) % 64 == 0 && k < 64
  {
    (119 - len % 64) % 64
  }

  /** Sections 3.1 and 3.2: a 1 bit, zeros, and the bit count modulo 2^64. */
  function Pad(msg: Bytes): (p: Bytes)
    ensures |p| % 64 == 0 && msg <= p
  {
    msg + Padding(|msg|)
  }

  function Padding(len: nat): (p: Bytes)
    ensures |p| == ZeroCount(len) + 9
  {
    [0x80] + Zeros(ZeroCount(len)) + BitCountBytes(len)
  }

  function BitCountBytes(len: nat): (t: Bytes)
    ensures |t| == 8
  {
    NumberBytes(8 * len % 0x1_0000_0000_0000_0000, 8)
  }

  function Zeros(n: nat): (z: Bytes)
    ensures |z| == n
  {
    seq(n, _ => 0)
  }

  function WordBytes(w: bv32): Bytes {
    [(w & 0xff) as bv8, ((w >> 8) & 0xff) as bv8, ((w >> 16) & 0xff) as bv8, ((w >> 24) & 0xff) as bv8]
  }

  /** Section 3.5. */
  function Output(r: Regs): (s: Bytes)
    ensures |s| == 16
  {
    WordBytes(r.a) + WordBytes(r.b) + WordBytes(r.c) + WordBytes(r.d)
  }

  function Digest(msg: Bytes): (s: Bytes)
    ensures |s| == 16
  {
    Output(Fold(IV, Pad(msg)))
  }

  // ---------- folding in pieces ----------

  /** Bytes of a message of n bytes that wait in the buffer. */
  function Used(n: nat): (u: nat)
    ensures u < 64 && u <= n
  {
    n % 64
  }

  function Whole(msg: Bytes): (w: Bytes)
    ensures |w| % 64 == 0 && w <= msg
  {
    msg[..|msg| - Used(|msg|)]
  }

  /** The bytes after the last whole block. */
  function Tail(msg: Bytes): (t: Bytes)
    ensures |t| == Used(|msg|) && Whole(msg) + t == msg
  {
    msg[|msg| - Used(|msg|)..]
  }

  lemma {:induction false} FoldAppend(r: Regs, m: Bytes, d: Bytes)
    requires |m| % 64 == 0
    ensures Fold(r, m + d) == Fold(Fold(r, m), d)
    decreases |m|
  {
    hide Compress;
    if m == [] {
      assert m + d == d;
    } else {
      assert (m + d)[..64] == m[..64] && (m + d)[64..] == m[64..] + d;
      FoldAppend(Compress(r, m[..64]), m[64..], d);
    }
  }

  lemma FoldShort(r: Regs, t: Bytes)
    requires |t| < 64
    ensures Fold(r, t) == r
  {}

  lemma TailOfWholePlus(w: Bytes, s: Bytes)
    requires |w| % 64 == 0
    ensures Tail(w + s) == Tail(s)
  {
    assert |w + s| % 64 == |s| % 64;
  }

  /** The context depends on a message only through the fold and the tail. */
  lemma FoldOfExtension(r: Regs, msg: Bytes, data: Bytes)
    ensures Fold(r, msg + data) == Fold(Fold(r, msg), Tail(msg) + data)
    ensures Tail(msg + data) == Tail(Tail(msg) + data)
  {
    hide Fold, Tail, Whole, Used;
    var w, t := Whole(msg), Tail(msg);
    FoldAppend(r, w, t);
    FoldShort(Fold(r, w), t);
    assert msg + data == w + (t + data);
    FoldAppend(r, w, t + data);
    TailOfWholePlus(w, t + data);
  }

  lemma SameTail(a: Bytes, b: Bytes)
    requires Tail(a) == Tail(b)
    ensures Used(|a|) == Used(|b|)
  {
    hide Tail, Used;
    assert |Tail(a)| == |Tail(b)|;
  }

  // ---------- the length counter ----------

  const LO: nat := 0x2000_0000  // 2^29
  const HI: nat := 0x1_0000_0000  // 2^32

  /** lo and hi after `len` bytes. */
  function LowCount(len: nat): nat { len % LO }
  function HighCount(len: nat): nat { (len / LO) % HI }

  /** The carry test of MD5_Update is right, even though it compares 29-bit values. */
  lemma CountersAdvance(len: nat, size: nat)
    ensures var lo := (LowCount(len) + size) % LO;
            && lo == LowCount(len + size)
            && ((if lo < LowCount(len) then 1 else 0) + size / LO + HighCount(len)) % HI == HighCount(len + size)
  {
    var q, s, x, y := len / LO, size / LO, len % LO, size % LO;
    var carry := if x + y >= LO then 1 else 0;
    Divides(len + size, q + s + carry, LO, x + y - carry * LO);
    Divides(x + size, s + carry, LO, x + y - carry * LO);
    AddModulo(q, carry + s);
  }

  // ---------- the length trailer ----------

  function Pow256(m: nat): nat {
    if m == 0 then 1 else 256 * Pow256(m - 1)
  }

  /** Bytes of a number made of two halves. */
  lemma {:induction false} ByteOfHalves(hi: nat, lo: nat, m: nat, k: nat)
    requires lo < Pow256(m)
    ensures ByteOf(hi * Pow256(m) + lo, k) == if k < m then ByteOf(lo, k) else ByteOf(hi, k - m)
    decreases m
  {
    var n := hi * Pow256(m) + lo;
    if m > 0 {
      var p := Pow256(m - 1);
      assert hi * Pow256(m) == 256 * (hi * p);
      assert n / 256 == hi * p + lo / 256 && n % 256 == lo % 256;
      if k > 0 {
        ByteOfHalves(hi, lo / 256, m - 1, k - 1);
      }
    }
  }

  /** lo shifted left by three and hi are the two halves of the 64-bit bit count. */
  lemma BitCount(len: nat)
    ensures var bits := 8 * len % 0x1_0000_0000_0000_0000;
            bits == HighCount(len) * HI + 8 * LowCount(len) && 8 * LowCount(len) < HI
  {
    var q, x := len / LO, len % LO;
    Divides(8 * len, q / HI, 0x1_0000_0000_0000_0000, (q % HI) * HI + 8 * x);
  }

  lemma TrailerByte(hi: nat, lo: nat, k: nat)
    requires lo < HI
    ensures ByteOf(hi * HI + lo, k) == if k < 4 then ByteOf(lo, k) else ByteOf(hi, k - 4)
  {
    assert Pow256(2) == 0x1_0000 && Pow256(4) == 256 * (256 * Pow256(2)) == HI;
    ByteOfHalves(hi, lo, 4, k);
  }

  lemma Trailer(len: nat)
    ensures BitCountBytes(len) == NumberBytes(8 * LowCount(len) % HI, 4) + NumberBytes(HighCount(len), 4)
  {
    hide ByteOf, LowCount, HighCount;
    BitCount(len);
    forall k: nat | k < 8
      ensures ByteOf(8 * len % 0x1_0000_0000_0000_0000, k) ==
              if k < 4 then ByteOf(8 * LowCount(len), k) else ByteOf(HighCount(len), k - 4)
    {
      TrailerByte(HighCount(len), 8 * LowCount(len), k);
    }
  }

  /** How many zeros fit before the trailer, seen from the bytes waiting in the buffer. */
  lemma PaddingSplit(len: nat)
    ensures ZeroCount(len) == if Used(len) < 56 then 55 - Used(len) else 119 - Used(len)
  {}

  /** The padding ends in this block or in the next. */
  lemma PaddingInBlocks(tail: Bytes, len: nat)
    ensures tail + Padding(len) ==
            if Used(len) < 56 then tail + [0x80] + Zeros(55 - Used(len)) + BitCountBytes(len)
            else (tail + [0x80] + Zeros(63 - Used(len))) + (Zeros(56) + BitCountBytes(len))
  {
    PaddingSplit(len);
    hide ZeroCount, Used, BitCountBytes;
    if Used(len) >= 56 {
      assert Zeros(63 - Used(len)) + Zeros(56) == Zeros(ZeroCount(len));
    }
  }

  // ---------- the context ----------

  lemma EmptyMessage()
    ensures Fold(IV, []) == IV && Tail([]) == [] && LowCount(0) == 0 && HighCount(0) == 0
  {
    FoldShort(IV, []);
  }

  class Md5Ctx {
    var lo: nat
    var hi: nat
    var a: bv32
    var b: bv32
    var c: bv32
    var d: bv32
    const buffer: array<bv8>

    function Chain(): Regs
      reads this
    {
      Regs(a, b, c, d)
    }

    /** The context after the message msg, however it was split into updates. */
    ghost predicate Holds(msg: Bytes)
      reads this, buffer
    {
      && buffer.Length == 64
      && Chain() == Fold(IV, msg)
      && buffer[..Used(|msg|)] == Tail(msg)
      && lo == LowCount(|msg|)
      && hi == HighCount(|msg|)
    }

    constructor Init()
      ensures Holds([]) && fresh(buffer)
    {
      a, b, c, d := 0x67452301, 0xefcdab89, 0x98badcfe, 0x10325476;
      lo, hi := 0, 0;
      buffer := new bv8[64];
      new;
      hide Fold, Compress, Tail, LowCount, HighCount;
      EmptyMessage();
    }

    /** The loop of `body` over one or more whole blocks. */
    method Body(data: Bytes)
      requires |data| >= 64 && |data| % 64 == 0
      modifies this`a, this`b, this`c, this`d
      ensures Chain() == Fold(old(Chain()), data)
    {
      hide Compress;
      var r := Regs(a, b, c, d);
      var ptr, size := 0, |data|;
      while size > 0
        invariant 0 <= ptr <= |data| && size == |data| - ptr && size % 64 == 0
        invariant Fold(r, data[ptr..]) == Fold(old(Chain()), data)
        invariant Chain() == old(Chain())
      {
        assert data[ptr..][..64] == data[ptr..ptr + 64] && data[ptr..][64..] == data[ptr + 64..];
        r := CompressBlock(r, data[ptr..ptr + 64]);
        ptr := ptr + 64;
        size := size - 64;
      }
      a, b, c, d := r.a, r.b, r.c, r.d;
    }

    method Fill(from: nat, data: Bytes)
      requires buffer.Length == 64 && from + |data| <= 64
      modifies buffer
      ensures buffer[..] == old(buffer[..from]) + data + old(buffer[from + |data|..])
    {
      forall i | 0 <= i < |data| {
        buffer[from + i] := data[i];
      }
    }

    /** MD5_Update after its length bookkeeping, with `used` bytes waiting in the buffer. */
    method Absorb(used: nat, chunk: Bytes)
      requires buffer.Length == 64 && used < 64
      modifies this`a, this`b, this`c, this`d, buffer
      ensures var rest := old(buffer[..used]) + chunk;
              Chain() == Fold(old(Chain()), rest) && buffer[..Used(|rest|)] == Tail(rest)
    {
      hide Fold;
      var data := chunk;
      ghost var rest := buffer[..used] + chunk;
      if used != 0 {
        var free := 64 - used;
        if |data| < free {
          Fill(used, data);
          FoldShort(Chain(), rest);
          return;
        }
        Fill(used, data[..free]);
        assert buffer[..] == rest[..64];
        Body(buffer[..]);
        data := data[free..];
        assert rest == rest[..64] + data;
        FoldAppend(old(Chain()), rest[..64], data);
        TailOfWholePlus(rest[..64], data);
      } else {
        assert rest == data;
      }
      assert Fold(Chain(), data) == Fold(old(Chain()), rest) && Tail(data) == Tail(rest);
      AbsorbAligned(data);
    }

    method AbsorbAligned(data: Bytes)
      requires buffer.Length == 64
      modifies this`a, this`b, this`c, this`d, buffer
      ensures Chain() == Fold(old(Chain()), data) && buffer[..Used(|data|)] == Tail(data)
    {
      hide Fold;
      var n := |data| - Used(|data|);
      if |data| >= 64 {
        Body(data[..n]);
      } else {
        FoldShort(Chain(), []);
      }
      assert data == data[..n] + data[n..];
      FoldAppend(old(Chain()), data[..n], data[n..]);
      FoldShort(Chain(), data[n..]);
      Fill(0, data[n..]);
    }

    method Count(size: nat, ghost len: nat)
      requires lo == LowCount(len) && hi == HighCount(len)
      modifies this`lo, this`hi
      ensures lo == LowCount(len + size) && hi == HighCount(len + size)
    {
      var savedLo := lo;
      lo := (savedLo + size) % LO;
      CountersAdvance(len, size);
      ghost var carry := if lo < savedLo then 1 else 0;
      if lo < savedLo {
        hi := (hi + 1) % HI;
      }
      AddModulo(carry + HighCount(len), size / LO);
      hi := (hi + size / LO) % HI;
    }

    /** `lo & 0x3f`: the bytes waiting in the buffer. */
    method Waiting(ghost len: nat) returns (used: nat)
      requires lo == LowCount(len)
      ensures used == Used(len)
    {
      UsedBytes(len);
      used := lo % 64;
    }

    method Update(data: Bytes, ghost msg: Bytes)
      requires Holds(msg)
      modifies this, buffer
      ensures Holds(msg + data)
    {
      hide Fold, Compress, LowCount, HighCount, Used, Tail, Whole;
      var used := Waiting(|msg|);
      ghost var rest := Tail(msg) + data;
      assert buffer[..used] == Tail(msg);
      FoldOfExtension(IV, msg, data);
      SameTail(msg + data, rest);
      assert |msg + data| == |msg| + |data|;
      Count(|data|, |msg|);
      Absorb(used, data);
    }

    /** The last block: zeros after the `used` bytes in the buffer, then the bit count. */
    method LastBlock(used: nat, ghost len: nat)
      requires buffer.Length == 64 && used <= 56
      requires lo == LowCount(len) && hi == HighCount(len)
      modifies this, buffer
      ensures Chain() == Fold(old(Chain()), old(buffer[..used]) + Zeros(56 - used) + BitCountBytes(len))
    {
      hide Fold, Compress, ByteOf, LowCount, HighCount, NumberBytes;
      ghost var head := buffer[..used];
      Trailer(len);
      Fill(used, Zeros(56 - used));
      assert buffer[..56] == head + Zeros(56 - used);
      lo := (lo * 8) % HI;
      Fill(56, NumberBytes(lo, 4));
      assert buffer[..60] == head + Zeros(56 - used) + NumberBytes(lo, 4);
      Fill(60, NumberBytes(hi, 4));
      assert buffer[..] == head + Zeros(56 - used) + BitCountBytes(len);
      Body(buffer[..]);
    }

    /** The one or two blocks MD5_Final makes of what is waiting in the buffer. */
    method FinishBlocks(ghost msg: Bytes)
      requires Holds(msg)
      modifies this, buffer
      ensures Chain() == Fold(IV, Pad(msg))
    {
      hide Fold, Compress, ByteOf, LowCount, HighCount, BitCountBytes, ZeroCount, Tail, Used, Whole, Padding;
      var used := Waiting(|msg|);
      ghost var tail := Tail(msg);
      FoldOfExtension(IV, msg, Padding(|msg|));
      Fill(used, [0x80]);
      used := used + 1;
      assert buffer[..used] == tail + [0x80];
      var free := 64 - used;
      if free < 8 {
        TwoBlocks(used, tail, |msg|);
      } else {
        PaddingInBlocks(tail, |msg|);
        LastBlock(used, |msg|);
      }
    }

    /** No room for the bit count: the zeros of the padding go over two blocks. */
    method TwoBlocks(used: nat, ghost tail: Bytes, ghost len: nat)
      requires buffer.Length == 64 && 56 < used <= 64 && used == Used(len) + 1
      requires buffer[..used] == tail + [0x80] && lo == LowCount(len) && hi == HighCount(len)
      modifies this, buffer
      ensures Chain() == Fold(old(Chain()), tail + Padding(len))
    {
      hide Fold, Compress, ByteOf, LowCount, HighCount, BitCountBytes, ZeroCount, Used, Padding;
      Fill(used, Zeros(64 - used));
      ghost var block := buffer[..];
      assert block == tail + [0x80] + Zeros(64 - used);
      Body(buffer[..]);
      LastBlock(0, len);
      PaddingInBlocks(tail, len);
      assert [] + Zeros(56) + BitCountBytes(len) == Zeros(56) + BitCountBytes(len);
      FoldAppend(old(Chain()), block, Zeros(56) + BitCountBytes(len));
    }

    method Final(ghost msg: Bytes) returns (result: Bytes)
      requires Holds(msg)
      modifies this, buffer
      ensures result == Digest(msg)
      ensures lo == hi == 0 && Chain() == Regs(0, 0, 0, 0) && buffer[..] == Zeros(64)
    {
      hide Fold, Compress, WordBytes, Pad;
      FinishBlocks(msg);
      result := WordBytes(a) + WordBytes(b) + WordBytes(c) + WordBytes(d);
      lo, hi, a, b, c, d := 0, 0, 0, 0, 0, 0;
      Fill(0, Zeros(64));
    }
  }

  lemma AddModulo(x: nat, y: nat)
    ensures (x % HI + y) % HI == (x + y) % HI
  {
    var t := x % HI + y;
    Divides(x + y, x / HI + t / HI, HI, t % HI);
  }

  lemma UsedBytes(len: nat)
    ensures LowCount(len) % 64 == Used(len)
  {
    var x := len % LO;
    Divides(len, (len / LO) * 0x80_0000 + x / 64, 64, x % 64);
  }

  // ---------- whole runs ----------

  function Concat(chunks: seq<Bytes>): Bytes {
    if chunks == [] then [] else chunks[0] + Concat(chunks[1..])
  }

  lemma {:induction false} ConcatLast(chunks: seq<Bytes>, chunk: Bytes)
    ensures Concat(chunks + [chunk]) == Concat(chunks) + chunk
  {
    if chunks == [] {
      assert chunks + [chunk] == [chunk];
    } else {
      assert (chunks + [chunk])[1..] == chunks[1..] + [chunk];
      ConcatLast(chunks[1..], chunk);
    }
  }

  /** However a message is split into updates, the result is the digest of the message. */
  method Md5OfChunks(chunks: seq<Bytes>) returns (result: Bytes)
    ensures result == Digest(Concat(chunks))
  {
    hide Digest, Compress;
    var ctx := new Md5Ctx.Init();
    var i := 0;
    while i < |chunks|
      invariant 0 <= i <= |chunks|
      invariant fresh(ctx) && fresh(ctx.buffer) && ctx.Holds(Concat(chunks[..i]))
    {
      assert chunks[..i + 1] == chunks[..i] + [chunks[i]];
      ConcatLast(chunks[..i], chunks[i]);
      ctx.Update(chunks[i], Concat(chunks[..i]));
      i := i + 1;
    }
    assert chunks[..i] == chunks;
    result := ctx.Final(Concat(chunks));
  }

  method Md5Signature(key: Bytes) returns (result: Bytes)
    ensures result == Digest(key)
  {
    hide Digest, Compress;
    var ctx := new Md5Ctx.Init();
    ctx.Update(key, []);
    assert [] + key == key;
    result := ctx.Final(key);
  }

  /** The 32-bit hash: the first four bytes of the digest, low-order byte first. */
  method Md5Hash(key: Bytes) returns (r: bv32)
    ensures var s := Digest(key); |s| == 16 && r == LittleEndian(s[0], s[1], s[2], s[3])
  {
    hide Digest, Compress, LittleEndian;
    var s := Md5Signature(key);
    r := LittleEndian(s[0], s[1], s[2], s[3]);
  }
}
