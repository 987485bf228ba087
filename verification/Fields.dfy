/** The field bit set GORM_FieldsOpt of include/gorm_utils.h: 1024 fields in 128 bytes, and
    the number of bytes in use. */
module Fields {

  const MAX_FIELD: nat := 1024
  const MAX_BYTES: nat := 128

  // ---------- bits ----------

  /** Position of a bit in a byte. */
  type BitNo = k: nat | k < 8

  /** 1 << k. */
  function Mask(k: BitNo): bv8 {
    if k == 0 then 0x01 else if k == 1 then 0x02 else if k == 2 then 0x04 else if k == 3 then 0x08
    else if k == 4 then 0x10 else if k == 5 then 0x20 else if k == 6 then 0x40 else 0x80
  }

  predicate Bit(x: bv8, k: BitNo) {
    x & Mask(k) > 0
  }

  function WithBit(x: bv8, k: BitNo): bv8 {
    x | Mask(k)
  }

  function FlipBit(x: bv8, k: BitNo): bv8 {
    x ^ Mask(k)
  }

  function Weight(x: bv8, k: BitNo): bv8 {
    if Bit(x, k) then 1 else 0
  }

  /** Bit k of a byte is worth 2^k: the lowest field of a byte is its lowest bit. */
  lemma BitsAreTheByte(x: bv8)
    ensures x == Weight(x, 0) + 2 * Weight(x, 1) + 4 * Weight(x, 2) + 8 * Weight(x, 3)
                 + 16 * Weight(x, 4) + 32 * Weight(x, 5) + 64 * Weight(x, 6) + 128 * Weight(x, 7)
  {}

  lemma BitLaws(x: bv8, k: BitNo, j: BitNo)
    ensures Bit(WithBit(x, k), j) <==> j == k || Bit(x, j)
    ensures Bit(FlipBit(x, k), j) <==> (if j == k then !Bit(x, j) else Bit(x, j))
    ensures !Bit(0, j)
  {}

  // ---------- the set ----------

  /** FieldInMode: the byte of the field is among the first iLen and has its bit set. */
  predicate FieldInMode(szFields: seq<bv8>, iLen: int, iField: nat)
    requires iLen <= |szFields| || |szFields| >= MAX_BYTES
  {
    iField < MAX_FIELD && iField / 8 < iLen && Bit(szFields[iField / 8], iField % 8)
  }

  /** What the object stands for: the fields in it, and the bytes that enumerating looks at. */
  datatype Model = Model(members: set<nat>, used: nat)

  datatype Op = Add(f: nat) | Del(f: nat)

  /** AddField inserts; DelField flips, and leaves the number of bytes in use alone. */
  function Apply(m: Model, op: Op): Model {
    match op
    case Add(f) =>
      if f >= MAX_FIELD then m
      else Model(m.members + {f}, if m.used <= f / 8 then f / 8 + 1 else m.used)
    case Del(f) =>
      if f >= MAX_FIELD then m
      else m.(members := if f in m.members then m.members - {f} else m.members + {f})
  }

  function Run(ops: seq<Op>): Model {
    if ops == [] then Model({}, 0) else Apply(Run(ops[..|ops| - 1]), ops[|ops| - 1])
  }

  /** Every member lies in the bytes in use. */
  ghost predicate Tight(m: Model) {
    m.used <= MAX_BYTES && forall f :: f in m.members ==> f < 8 * m.used
  }

  /** Only fields that are present are deleted. */
  ghost predicate Disciplined(ops: seq<Op>) {
    forall i :: 0 <= i < |ops| && ops[i].Del? ==> ops[i].f in Run(ops[..i]).members
  }

  /** The last word on a field. */
  predicate LastAdds(ops: seq<Op>, f: nat) {
    if ops == [] then false
    else if ops[|ops| - 1].f == f then ops[|ops| - 1].Add? else LastAdds(ops[..|ops| - 1], f)
  }

  lemma DisciplinedPrefix(ops: seq<Op>)
    requires ops != [] && Disciplined(ops)
    ensures Disciplined(ops[..|ops| - 1])
    ensures var op := ops[|ops| - 1]; op.Del? ==> op.f in Run(ops[..|ops| - 1]).members
  {
    var front := ops[..|ops| - 1];
    forall i | 0 <= i < |front| && front[i].Del? ensures front[i].f in Run(front[..i]).members {
      assert front[..i] == ops[..i] && ops[i] == front[i];
    }
  }

  /** A disciplined history makes the bit set a set: a field is in it exactly if the last
      operation on it added it, and every member lies in the bytes in use. */
  lemma {:induction false} HistoryIsASet(ops: seq<Op>)
    requires Disciplined(ops)
    ensures Tight(Run(ops))
    ensures forall f: nat :: f in Run(ops).members <==> f < MAX_FIELD && LastAdds(ops, f)
    decreases |ops|
  {
    if ops != [] {
      DisciplinedPrefix(ops);
      HistoryIsASet(ops[..|ops| - 1]);
    }
  }

  /** Deleting keeps the members inside the bytes in use exactly if the field was present, or
      is inside them anyway, or is out of range. */
  lemma DelKeepsTightIff(m: Model, f: nat)
    requires Tight(m)
    ensures Tight(Apply(m, Del(f))) <==> f in m.members || f < 8 * m.used || f >= MAX_FIELD
  {
    var m' := Apply(m, Del(f));
    if f < MAX_FIELD && f !in m.members {
      assert f in m'.members;
    }
  }

  /** Deleting an absent field puts it in, outside the bytes in use. */
  lemma DeletedFieldAppears()
    ensures Run([Del(9)]) == Model({9}, 0) && !Tight(Run([Del(9)]))
  {
    assert [Del(9)][..0] == [];
    assert 9 in Run([Del(9)]).members;
  }

  lemma DelTwice(m: Model, f: nat)
    ensures Apply(Apply(m, Del(f)), Del(f)) == m
  {
    if f < MAX_FIELD {
      assert if f in m.members then m.members - {f} + {f} == m.members else m.members + {f} - {f} == m.members;
    }
  }

  // ---------- one byte changes ----------

  type Bytes128 = s: seq<bv8> | |s| == MAX_BYTES witness seq(MAX_BYTES, _ => 0)
  type FieldNo = f: nat | f < MAX_FIELD

  /** The fields of the 128 bytes. */
  ghost function SetOf(s: Bytes128): set<nat> {
    set f: nat | f < MAX_FIELD && FieldInMode(s, MAX_BYTES, f)
  }

  lemma FieldAfter(a: Bytes128, n: FieldNo, f: FieldNo)
    ensures FieldInMode(a[n / 8 := WithBit(a[n / 8], n % 8)], MAX_BYTES, f) <==> f == n || FieldInMode(a, MAX_BYTES, f)
    ensures FieldInMode(a[n / 8 := FlipBit(a[n / 8], n % 8)], MAX_BYTES, f)
            <==> (if f == n then !FieldInMode(a, MAX_BYTES, f) else FieldInMode(a, MAX_BYTES, f))
  {
    BitLaws(a[n / 8], n % 8, f % 8);
    hide Bit, WithBit, FlipBit;
    assert f == n <==> f / 8 == n / 8 && f % 8 == n % 8;
  }

  lemma SetAfter(a: Bytes128, n: FieldNo)
    ensures SetOf(a[n / 8 := WithBit(a[n / 8], n % 8)]) == SetOf(a) + {n}
    ensures SetOf(a[n / 8 := FlipBit(a[n / 8], n % 8)]) == if n in SetOf(a) then SetOf(a) - {n} else SetOf(a) + {n}
  {
    forall f: nat | f < MAX_FIELD { FieldAfter(a, n, f); }
    hide FieldInMode, WithBit, FlipBit;
  }

  // ---------- enumeration ----------

  /** v lists, in increasing order, the fields below n that are set. */
  ghost predicate Lists(v: seq<nat>, szFields: seq<bv8>, iLen: nat, n: nat)
    requires iLen <= |szFields| && iLen <= MAX_BYTES
  {
    && (forall i, j :: 0 <= i < j < |v| ==> v[i] < v[j])
    && (forall f: nat :: f in v <==> f < n && FieldInMode(szFields, iLen, f))
  }

  lemma ListsOneMore(v: seq<nat>, szFields: seq<bv8>, iLen: nat, i: nat, k: nat)
    requires iLen <= |szFields| && i < iLen <= MAX_BYTES && k < 8 && Lists(v, szFields, iLen, 8 * i + k)
    ensures Lists(if Bit(szFields[i], k) then v + [8 * i + k] else v, szFields, iLen, 8 * i + k + 1)
  {
    var n := 8 * i + k;
    assert n / 8 == i && n % 8 == k;
    hide Bit;
    assert FieldInMode(szFields, iLen, n) <==> Bit(szFields[i], k);
    hide FieldInMode;
    if Bit(szFields[i], k) {
      var w := v + [n];
      forall a, b | 0 <= a < b < |w| ensures w[a] < w[b] {
        assert w[a] in v;
      }
      forall f: nat ensures f in w <==> f < n + 1 && FieldInMode(szFields, iLen, f) {
        assert f in w <==> f in v || f == n;
      }
    }
  }

  /** GetFields. */
  method GetFields(szFields: seq<bv8>, iLen: int) returns (v: seq<nat>)
    requires iLen <= |szFields| || |szFields| >= MAX_BYTES
    ensures forall i, j :: 0 <= i < j < |v| ==> v[i] < v[j]
    ensures forall f: nat :: f in v <==> FieldInMode(szFields, iLen, f)
  {
    hide Bit;
    var len: nat := if iLen > MAX_BYTES then MAX_BYTES else if iLen < 0 then 0 else iLen;
    v := [];
    var i := 0;
    while i < len
      invariant 0 <= i <= len && Lists(v, szFields, len, 8 * i)
    {
      v := GetByteFields(v, szFields, len, i);
      i := i + 1;
    }
  }

  /** The body of the loop: eight tests. */
  method GetByteFields(v0: seq<nat>, szFields: seq<bv8>, iLen: nat, i: nat) returns (v: seq<nat>)
    requires iLen <= |szFields| && i < iLen <= MAX_BYTES && Lists(v0, szFields, iLen, 8 * i)
    ensures Lists(v, szFields, iLen, 8 * i + 8)
  {
    hide Bit, Lists;
    var cField := szFields[i];
    v := TestFour(v0, szFields, iLen, i, 0, cField);
    v := TestFour(v, szFields, iLen, i, 4, cField);
  }

  /** Four of the tests, on the bits k to k + 3. */
  method TestFour(v0: seq<nat>, szFields: seq<bv8>, iLen: nat, i: nat, k: nat, cField: bv8) returns (v: seq<nat>)
    requires iLen <= |szFields| && i < iLen <= MAX_BYTES && k <= 4 && cField == szFields[i]
    requires Lists(v0, szFields, iLen, 8 * i + k)
    ensures Lists(v, szFields, iLen, 8 * i + k + 4)
  {
    hide Bit, Lists;
    var iField := 8 * i;
    v := v0;
    ListsOneMore(v, szFields, iLen, i, k);
    if Bit(cField, k) { v := v + [iField + k]; }
    ListsOneMore(v, szFields, iLen, i, k + 1);
    if Bit(cField, k + 1) { v := v + [iField + k + 1]; }
    ListsOneMore(v, szFields, iLen, i, k + 2);
    if Bit(cField, k + 2) { v := v + [iField + k + 2]; }
    ListsOneMore(v, szFields, iLen, i, k + 3);
    if Bit(cField, k + 3) { v := v + [iField + k + 3]; }
  }

  // ---------- the object ----------

  class FieldsOpt {
    const szFieldCollections: array<bv8>
    var iUsedIdx: nat

    predicate Valid() {
      szFieldCollections.Length == MAX_BYTES
    }

    ghost function Value(): Model
      requires Valid()
      reads this, szFieldCollections
    {
      Model(SetOf(szFieldCollections[..]), iUsedIdx)
    }

    constructor ()
      ensures Valid() && fresh(szFieldCollections) && Value() == Run([])
    {
      var data := new bv8[MAX_BYTES](_ => 0);
      szFieldCollections := data;
      iUsedIdx := 0;
      new;
      forall f: nat | f < MAX_FIELD ensures !FieldInMode(szFieldCollections[..], MAX_BYTES, f) {
        BitLaws(0, 0, f % 8);
      }
    }

    method AddField(iField: nat) returns (ok: bool)
      requires Valid()
      modifies this`iUsedIdx, szFieldCollections
      ensures Valid() && ok == (iField < MAX_FIELD) && Value() == Apply(old(Value()), Add(iField))
    {
      if iField >= MAX_FIELD {
        return false;
      }
      var idx := iField / 8;
      hide WithBit, FlipBit, SetOf;
      ghost var a := szFieldCollections[..];
      szFieldCollections[idx] := WithBit(szFieldCollections[idx], iField % 8);
      if iUsedIdx <= idx {
        iUsedIdx := idx + 1;
      }
      assert szFieldCollections[..] == a[idx := WithBit(a[idx], iField % 8)];
      SetAfter(a, iField);
      return true;
    }

    method DelField(iField: nat) returns (ok: bool)
      requires Valid()
      modifies szFieldCollections
      ensures Valid() && ok && Value() == Apply(old(Value()), Del(iField))
    {
      if iField >= MAX_FIELD {
        return true;
      }
      var idx := iField / 8;
      hide WithBit, FlipBit, SetOf;
      ghost var a := szFieldCollections[..];
      szFieldCollections[idx] := FlipBit(szFieldCollections[idx], iField % 8);
      assert szFieldCollections[..] == a[idx := FlipBit(a[idx], iField % 8)];
      SetAfter(a, iField);
      return true;
    }

    method Reset()
      requires Valid()
      modifies this`iUsedIdx, szFieldCollections
      ensures Valid() && Value() == Run([])
    {
      forall i | 0 <= i < MAX_BYTES {
        szFieldCollections[i] := 0;
      }
      iUsedIdx := 0;
      forall f: nat | f < MAX_FIELD ensures !FieldInMode(szFieldCollections[..], MAX_BYTES, f) {
        BitLaws(0, 0, f % 8);
      }
    }

    /** Enumerating only the bytes in use loses nothing exactly if every member lies in them. */
    method UsedFields() returns (v: seq<nat>)
      requires Valid()
      ensures forall i, j :: 0 <= i < j < |v| ==> v[i] < v[j]
      ensures forall f: nat :: f in v <==> f in Value().members && f < 8 * iUsedIdx
      ensures iUsedIdx <= MAX_BYTES ==> (Tight(Value()) <==> forall f: nat :: f in v <==> f in Value().members)
    {
      hide Bit;
      v := GetFields(szFieldCollections[..], iUsedIdx);
    }
  }
}
