/** 32-bit words: operations under a name, so that proofs can treat them as symbols. */
module Words {

  function Plus(x: bv32, y: bv32): bv32 { x + y }
  function Xor(x: bv32, y: bv32): bv32 { x ^ y }

  /** Four bytes as a word, low-order byte first. */
  function LittleEndian(a: bv8, b: bv8, c: bv8, d: bv8): bv32 {
    (a as bv32) | ((b as bv32) << 8) | ((c as bv32) << 16) | ((d as bv32) << 24)
  }

  lemma LittleEndianInjective(a: bv8, b: bv8, c: bv8, d: bv8, a': bv8, b': bv8, c': bv8, d': bv8)
    ensures LittleEndian(a, b, c, d) == LittleEndian(a', b', c', d') ==> a == a' && b == b' && c == c' && d == d'
  {}

  // ---------- addition modulo 2^32 is associative and commutative ----------

  /** Equality under a name: it keeps the solver from rewriting words across it. */
  predicate Same(x: bv32, y: bv32) { x == y }

  lemma PlusIs(x: bv32, y: bv32)
    ensures Same(Plus(x, y), x + y)
  {}

  lemma LeftSum(x: bv32, y: bv32, z: bv32)
    ensures Same(Plus(x + y, z), x + y + z)
  {}

  lemma RightSum(x: bv32, y: bv32, z: bv32)
    ensures Same(Plus(x, y + z), x + y + z)
  {}

  lemma LeftNested(x: bv32, y: bv32, z: bv32)
    ensures Same(Plus(Plus(x, y), z), x + y + z)
  {
    hide Plus;
    PlusIs(x, y);
    LeftSum(x, y, z);
  }

  lemma RightNested(x: bv32, y: bv32, z: bv32)
    ensures Same(Plus(x, Plus(y, z)), x + y + z)
  {
    hide Plus;
    PlusIs(y, z);
    RightSum(x, y, z);
  }

  lemma PlusAssociates(x: bv32, y: bv32, z: bv32)
    ensures Plus(Plus(x, y), z) == Plus(x, Plus(y, z))
  {
    hide Plus;
    LeftNested(x, y, z);
    RightNested(x, y, z);
  }

  lemma PlusCommutes(x: bv32, y: bv32)
    ensures Plus(x, y) == Plus(y, x)
  {}
}
