/** The size-class memory pool of src/gorm_mempool.cc: twelve power-of-two classes, bounded
    last-in first-out free lists, and recycled metadata. */
module Pool {
  import opened Basics

  const TOTAL_TYPE: nat := 12
  const MIN_LEN: nat := 0x200
  const LIST_MAX: nat := 128
  const META_MAX: nat := 0xFFFF
  const LARGEST_CLASS: nat := 1024 * 1024

  // ---------- size classes ----------

  /** Capacity of class i: 512 doubled i times. */
  function ClassSize(i: nat): (c: nat)
    ensures c >= MIN_LEN
  {
    if i == 0 then MIN_LEN else 2 * ClassSize(i - 1)
  }

  /** A size_t seen as an int. */
  function ToInt(size: nat): int {
    var low := size % 0x1_0000_0000;
    if low < 0x8000_0000 then low else low - 0x1_0000_0000
  }

  /** A class, or 12 for none. */
  type ClassNo = i: nat | i <= TOTAL_TYPE

  /** First class from i on that holds `size`. */
  function ClassFrom(size: nat, i: ClassNo): (k: ClassNo)
    ensures i <= k
    decreases TOTAL_TYPE - i
  {
    if i == TOTAL_TYPE then i else if size <= ClassSize(i) then i else ClassFrom(size, i + 1)
  }

  function ClassOf(size: nat): ClassNo {
    ClassFrom(size, 0)
  }

  /** Capacity of the block GetData returns: the class size, or the request cast to int. */
  function CapacityFor(size: nat): int {
    if ClassOf(size) < TOTAL_TYPE then ClassSize(ClassOf(size)) else ToInt(size)
  }

  lemma {:induction false} ClassSizeDoubles(i: nat, j: nat)
    requires i <= j
    ensures ClassSize(i) <= ClassSize(j) && (i < j ==> 2 * ClassSize(i) <= ClassSize(j))
    decreases j
  {
    if i < j {
      ClassSizeDoubles(i, j - 1);
    }
  }

  lemma LargestClass()
    ensures ClassSize(TOTAL_TYPE - 1) == LARGEST_CLASS
  {
    assert ClassSize(3) == 4096;
    assert ClassSize(6) == 32768;
    assert ClassSize(9) == 262144;
  }

  lemma {:induction false} ClassFromIsLeast(size: nat, i: ClassNo)
    ensures var k := ClassFrom(size, i);
            (k < TOTAL_TYPE ==> size <= ClassSize(k)) && forall j :: i <= j < k ==> ClassSize(j) < size
    decreases TOTAL_TYPE - i
  {
    if i < TOTAL_TYPE && size > ClassSize(i) {
      ClassFromIsLeast(size, i + 1);
    }
  }

  /** The class chosen is the least that holds the request; there is one exactly up to 1 MiB,
      and then less than twice the request is handed out once it exceeds 512 bytes. */
  lemma ClassOfIsLeast(size: nat)
    ensures var k := ClassOf(size);
            && (k < TOTAL_TYPE <==> size <= LARGEST_CLASS)
            && (k < TOTAL_TYPE ==> size <= ClassSize(k))
            && (forall j :: 0 <= j < k ==> ClassSize(j) < size)
            && (k < TOTAL_TYPE && size > MIN_LEN ==> ClassSize(k) < 2 * size)
  {
    var k := ClassOf(size);
    ClassFromIsLeast(size, 0);
    LargestClass();
    if k < TOTAL_TYPE {
      ClassSizeDoubles(k, TOTAL_TYPE - 1);
      if k > 0 { assert ClassSize(k) == 2 * ClassSize(k - 1); }
    } else {
      assert ClassSize(TOTAL_TYPE - 1) < size;
    }
  }

  /** The block is large enough exactly when the request fits an int: a larger size_t is
      truncated before it is allocated. */
  lemma CapacityCoversIff(size: nat)
    ensures CapacityFor(size) >= size <==> size < 0x8000_0000
  {
    ClassOfIsLeast(size);
  }

  /** A request of 4 GiB and 100 bytes is served with 100 bytes. */
  lemma TruncatedRequest()
    ensures CapacityFor(0x1_0000_0000 + 100) == 100
  {
    ClassOfIsLeast(0x1_0000_0000 + 100);
  }

  // ---------- blocks ----------

  /** Where a block is: one place only. */
  datatype Home = Nowhere | Live | Pooled(i: nat, k: nat) | Meta(k: nat)

  class MemPoolData {
    var data: array?<Octet>  // m_uszData, with m_uszEnd at its end
    var index: nat
    var capacity: nat
    var used: nat
    ghost var home: Home

    constructor ()
      ensures data == null && index == 0 && capacity == 0 && used == 0 && home == Nowhere
    {
      data, index, capacity, used, home := null, 0, 0, 0, Nowhere;
    }
  }

  /** A block that has a buffer of its capacity, of its class if it has one. */
  ghost predicate Formed(b: MemPoolData)
    reads b
  {
    && b.data != null && b.data.Length == b.capacity && b.index <= TOTAL_TYPE
    && (b.index < TOTAL_TYPE ==> b.capacity == ClassSize(b.index))
  }

  class MemPool {
    var aSize: seq<nat>
    var free: seq<seq<MemPoolData>>
    var freeMeta: seq<MemPoolData>
    ghost var live: set<MemPoolData>
    ghost var known: set<MemPoolData>  // live, pooled and recycled blocks
    ghost var owner: map<array<Octet>, MemPoolData>

    ghost predicate Valid()
      reads this, known
    {
      && |aSize| == TOTAL_TYPE && (forall i :: 0 <= i < TOTAL_TYPE ==> aSize[i] == ClassSize(i))
      && |free| == TOTAL_TYPE && |freeMeta| <= META_MAX
      && live <= known
      && (forall i :: 0 <= i < TOTAL_TYPE ==> |free[i]| <= LIST_MAX)
      && (forall i, k :: 0 <= i < TOTAL_TYPE && 0 <= k < |free[i]| ==> PooledOk(i, k))
      && (forall k :: 0 <= k < |freeMeta| ==> MetaOk(k))
      && (forall b :: b in live ==> LiveOk(b))
    }

    /** Entry k of free list i: a block of exactly that class, owning its buffer. */
    ghost predicate PooledOk(i: nat, k: nat)
      requires i < |free| && k < |free[i]|
      reads this, known
    {
      var b := free[i][k];
      && b in known && b.home == Pooled(i, k) && Formed(b) && b.index == i && b.used == 0
      && b.data in owner && owner[b.data] == b
    }

    /** Recycled metadata owns no buffer. */
    ghost predicate MetaOk(k: nat)
      requires k < |freeMeta|
      reads this, known
    {
      var b := freeMeta[k];
      b in known && b.home == Meta(k) && b.data == null && b.capacity == 0 && b.used == 0
    }

    ghost predicate LiveOk(b: MemPoolData)
      reads this, known
    {
      b in known && b.home == Live && Formed(b) && b.used <= b.capacity && b.data in owner && owner[b.data] == b
    }

    /** The loop that doubles the size. */
    static method Sizes() returns (sizes: seq<nat>)
      ensures |sizes| == TOTAL_TYPE && forall i :: 0 <= i < TOTAL_TYPE ==> sizes[i] == ClassSize(i)
    {
      var iSize := MIN_LEN;
      sizes := [];
      var i := 0;
      while i < TOTAL_TYPE
        invariant 0 <= i <= TOTAL_TYPE && |sizes| == i && iSize == ClassSize(i)
        invariant forall j :: 0 <= j < i ==> sizes[j] == ClassSize(j)
      {
        assert ClassSize(i + 1) == 2 * ClassSize(i);
        hide ClassSize;
        sizes := sizes + [iSize];
        iSize := iSize * 2;
        i := i + 1;
      }
    }

    constructor ()
      ensures Valid() && live == {} && fresh(known)
    {
      var sizes := Sizes();
      hide ClassSize;
      aSize := sizes;
      free := seq(TOTAL_TYPE, _ => []);
      freeMeta := [];
      live, known, owner := {}, {}, map[];
    }

    /** No two blocks share a buffer, whether live or pooled, and a live block is not pooled. */
    lemma NoAliasing(b: MemPoolData, c: MemPoolData)
      requires Valid() && b in live && b != c
      requires c in live || exists i, k :: 0 <= i < TOTAL_TYPE && 0 <= k < |free[i]| && free[i][k] == c
      ensures b.data != c.data && c.data != null
      ensures forall i, k :: 0 <= i < TOTAL_TYPE && 0 <= k < |free[i]| ==> free[i][k] != b
    {
      assert LiveOk(b);
      if c in live {
        assert LiveOk(c);
      } else {
        var i, k :| 0 <= i < TOTAL_TYPE && 0 <= k < |free[i]| && free[i][k] == c;
        assert PooledOk(i, k);
      }
      forall i, k | 0 <= i < TOTAL_TYPE && 0 <= k < |free[i]| ensures free[i][k] != b {
        assert PooledOk(i, k);
      }
    }

    /** The loop that finds the class. */
    method FindClass(sSize: nat) returns (iIndex: nat)
      requires Valid()
      ensures iIndex == ClassOf(sSize)
    {
      var i := 0;
      while i < TOTAL_TYPE
        invariant 0 <= i <= TOTAL_TYPE && ClassFrom(sSize, i) == ClassOf(sSize)
      {
        if sSize <= aSize[i] {
          return i;
        }
        i := i + 1;
      }
      return TOTAL_TYPE;
    }

    /** `new char[n]` needs a non-negative n: that is all the source asks of the size. */
    method GetData(sSize: nat) returns (ret: MemPoolData)
      requires Valid() && CapacityFor(sSize) >= 0
      modifies this, known
      ensures Valid() && fresh(known - old(known))
      ensures ret !in old(live) && live == old(live) + {ret}
      ensures ret.capacity == CapacityFor(sSize) && ret.index == ClassOf(sSize)
      ensures ret.data != null && (fresh(ret.data) || ret.data in old(owner))
      ensures forall b :: b in old(live) ==> unchanged(b)
      ensures ClassOf(sSize) < TOTAL_TYPE && old(free[ClassOf(sSize)]) != [] ==>
                var list := old(free[ClassOf(sSize)]); ret == list[|list| - 1]
      ensures !(ClassOf(sSize) < TOTAL_TYPE && old(free[ClassOf(sSize)]) != []) ==> fresh(ret.data)
      ensures fresh(owner.Keys - old(owner.Keys))
    {
      var iIndex := FindClass(sSize);
      var iNewSize := if iIndex < TOTAL_TYPE then aSize[iIndex] else ToInt(sSize);
      ClassOfIsLeast(sSize);
      if iIndex < TOTAL_TYPE && free[iIndex] != [] {
        ret := Reuse(iIndex);
      } else {
        ret := Allocate(iIndex, iNewSize);
      }
    }

    /** Take the block released last from free list i. */
    method Reuse(i: nat) returns (ret: MemPoolData)
      requires Valid() && i < TOTAL_TYPE && free[i] != []
      modifies this, known
      ensures Valid() && known == old(known)
      ensures ret == old(free[i][|free[i]| - 1]) && ret !in old(live) && live == old(live) + {ret}
      ensures ret.data != null && ret.data in old(owner)
      ensures free == old(free)[i := old(free)[i][..|old(free)[i]| - 1]] && ret.data == old(free[i][|free[i]| - 1].data)
      ensures ret.capacity == ClassSize(i) && ret.index == i
      ensures forall b :: b in old(live) ==> unchanged(b)
      ensures owner == old(owner)
    {
      var list := free[i];
      var top := |list| - 1;
      assert PooledOk(i, top);
      ret := list[top];
      DistinctFromPooled(i, top);
      label before:
      free := free[i := list[..top]];
      ret.home := Live;
      live := live + {ret};
      forall j, k | 0 <= j < TOTAL_TYPE && 0 <= k < |free[j]| ensures PooledOk(j, k) {
        assert old@before(PooledOk(j, k)) && free[j][k] == old@before(free[j][k]) != ret;
      }
      forall k | 0 <= k < |freeMeta| ensures MetaOk(k) {
        assert old@before(MetaOk(k)) && freeMeta[k] != ret;
      }
      forall b | b in live ensures LiveOk(b) {
        assert b != ret ==> old@before(LiveOk(b));
      }
    }

    /** Entry t of free list i is no other entry, no recycled metadata, and not live. */
    lemma DistinctFromPooled(i: nat, t: nat)
      requires Valid() && i < TOTAL_TYPE && t < |free[i]|
      ensures forall j, k :: 0 <= j < TOTAL_TYPE && 0 <= k < |free[j]| && (j != i || k != t) ==>
              free[j][k] != free[i][t]
      ensures forall k :: 0 <= k < |freeMeta| ==> freeMeta[k] != free[i][t]
      ensures free[i][t] !in live
    {
      assert PooledOk(i, t);
      forall j, k | 0 <= j < TOTAL_TYPE && 0 <= k < |free[j]| && (j != i || k != t) ensures free[j][k] != free[i][t] {
        assert PooledOk(j, k);
      }
      forall k | 0 <= k < |freeMeta| ensures freeMeta[k] != free[i][t] {
        assert MetaOk(k);
      }
      assert free[i][t] in live ==> LiveOk(free[i][t]);
    }

    lemma DistinctFromMeta(t: nat)
      requires Valid() && t < |freeMeta|
      ensures forall j, k :: 0 <= j < TOTAL_TYPE && 0 <= k < |free[j]| ==> free[j][k] != freeMeta[t]
      ensures forall k :: 0 <= k < |freeMeta| && k != t ==> freeMeta[k] != freeMeta[t]
      ensures freeMeta[t] !in live
    {
      assert MetaOk(t);
      forall j, k | 0 <= j < TOTAL_TYPE && 0 <= k < |free[j]| ensures free[j][k] != freeMeta[t] {
        assert PooledOk(j, k);
      }
      forall k | 0 <= k < |freeMeta| && k != t ensures freeMeta[k] != freeMeta[t] {
        assert MetaOk(k);
      }
      assert freeMeta[t] in live ==> LiveOk(freeMeta[t]);
    }

    lemma DistinctFromLive(b: MemPoolData)
      requires Valid() && b in live
      ensures forall j, k :: 0 <= j < TOTAL_TYPE && 0 <= k < |free[j]| ==> free[j][k] != b
      ensures forall k :: 0 <= k < |freeMeta| ==> freeMeta[k] != b
    {
      assert LiveOk(b);
      forall j, k | 0 <= j < TOTAL_TYPE && 0 <= k < |free[j]| ensures free[j][k] != b {
        assert PooledOk(j, k);
      }
      forall k | 0 <= k < |freeMeta| ensures freeMeta[k] != b {
        assert MetaOk(k);
      }
    }

    /** A new buffer, under recycled or new metadata. */
    method Allocate(i: nat, size: nat) returns (ret: MemPoolData)
      requires Valid() && i <= TOTAL_TYPE && (i < TOTAL_TYPE ==> size == ClassSize(i))
      modifies this, known
      ensures Valid() && fresh(known - old(known))
      ensures ret !in old(live) && live == old(live) + {ret} && ret.data != null && fresh(ret.data)
      ensures ret.capacity == size && ret.index == i
      ensures forall b :: b in old(live) ==> unchanged(b)
      ensures fresh(owner.Keys - old(owner.Keys))
    {
      hide ClassSize, MemPool.Valid;
      ret := TakeMeta();
      var data := new Octet[size](_ => 0);
      Equip(ret, data, i);
    }

    method Equip(ret: MemPoolData, data: array<Octet>, i: nat)
      requires Valid() && i <= TOTAL_TYPE && (i < TOTAL_TYPE ==> data.Length == ClassSize(i))
      requires ret in known && ret.home == Nowhere && ret.used == 0 && data !in owner
      modifies this`owner, this`live, ret
      ensures Valid() && live == old(live) + {ret}
      ensures ret.data == data && ret.capacity == data.Length && ret.index == i
      ensures owner.Keys == old(owner.Keys) + {data}
    {
      hide ClassSize;
      assert ret !in live by { assert ret in live ==> LiveOk(ret); }
      label before:
      ret.index := i;
      ret.data := data;
      ret.capacity := data.Length;
      ret.home := Live;
      owner := owner[data := ret];
      live := live + {ret};
      forall j, k | 0 <= j < TOTAL_TYPE && 0 <= k < |free[j]| ensures PooledOk(j, k) {
        assert old@before(PooledOk(j, k));
      }
      forall k | 0 <= k < |freeMeta| ensures MetaOk(k) {
        assert old@before(MetaOk(k));
      }
      forall b | b in live ensures LiveOk(b) {
        assert b != ret ==> old@before(LiveOk(b));
      }
    }

    /** Metadata without a buffer: recycled if there is any, else new. */
    method TakeMeta() returns (ret: MemPoolData)
      requires Valid()
      modifies this, known
      ensures Valid() && fresh(known - old(known))
      ensures ret in known && ret.home == Nowhere && ret.used == 0 && ret !in old(live) && live == old(live)
      ensures forall b :: b in old(live) ==> unchanged(b)
      ensures owner == old(owner)
    {
      if freeMeta != [] {
        var last := |freeMeta| - 1;
        assert MetaOk(last);
        ret := freeMeta[last];
        DistinctFromMeta(last);
        label before:
        freeMeta := freeMeta[..last];
        ret.home := Nowhere;
        forall j, k | 0 <= j < TOTAL_TYPE && 0 <= k < |free[j]| ensures PooledOk(j, k) {
          assert old@before(PooledOk(j, k));
        }
        forall k | 0 <= k < |freeMeta| ensures MetaOk(k) {
          assert old@before(MetaOk(k)) && freeMeta[k] == old@before(freeMeta[k]);
        }
        forall b | b in live ensures LiveOk(b) {
          assert old@before(LiveOk(b));
        }
      } else {
        label before2:
        ret := new MemPoolData();
        known := known + {ret};
        forall j, k | 0 <= j < TOTAL_TYPE && 0 <= k < |free[j]| ensures PooledOk(j, k) {
          assert old@before2(PooledOk(j, k));
        }
        forall b | b in live ensures LiveOk(b) {
          assert old@before2(LiveOk(b));
        }
      }
    }

    /** Does free list i have room for one more? */
    predicate ListHasRoom(i: nat)
      reads this
    {
      i < TOTAL_TYPE && i < |free| && |free[i]| != LIST_MAX
    }

    method Release(pData: MemPoolData)
      requires Valid() && pData in live
      modifies this, known
      ensures Valid() && known == old(known) && live == old(live) - {pData}
      ensures forall b :: b in live ==> unchanged(b)
      ensures if old(ListHasRoom(pData.index))
              then var i := old(pData.index);
                   free == old(free)[i := old(free)[i] + [pData]] && freeMeta == old(freeMeta)
                   && pData.index == i && pData.data == old(pData.data)
              else free == old(free) && pData.data == null
                   && freeMeta == if |old(freeMeta)| < META_MAX then old(freeMeta) + [pData] else old(freeMeta)
      ensures owner.Keys <= old(owner.Keys)
    {
      assert LiveOk(pData);
      if pData.index < TOTAL_TYPE && |free[pData.index]| != LIST_MAX {
        PushFree(pData);
      } else {
        Discard(pData);
      }
    }

    method PushFree(pData: MemPoolData)
      requires Valid() && pData in live && ListHasRoom(pData.index)
      modifies this`free, this`live, pData
      ensures Valid() && live == old(live) - {pData}
      ensures free == old(free)[old(pData.index) := old(free)[old(pData.index)] + [pData]]
      ensures pData.index == old(pData.index) && pData.data == old(pData.data)
    {
      hide ClassSize;
      assert LiveOk(pData);
      DistinctFromLive(pData);
      var i := pData.index;
      label before:
      pData.used := 0;
      pData.home := Pooled(i, |free[i]|);
      free := free[i := free[i] + [pData]];
      live := live - {pData};
      forall j, k | 0 <= j < TOTAL_TYPE && 0 <= k < |free[j]| ensures PooledOk(j, k) {
        if !(j == i && k == |free[i]| - 1) {
          assert old@before(PooledOk(j, k)) && free[j][k] == old@before(free[j][k]) != pData;
        }
      }
      forall k | 0 <= k < |freeMeta| ensures MetaOk(k) {
        assert old@before(MetaOk(k));
      }
      forall b | b in live ensures LiveOk(b) {
        assert old@before(LiveOk(b)) && b != pData;
      }
    }

    /** The buffer is deleted; the metadata is kept if there is room for it. */
    method Discard(pData: MemPoolData)
      requires Valid() && pData in live
      modifies this`freeMeta, this`live, this`owner, pData
      ensures Valid() && live == old(live) - {pData} && pData.data == null
      ensures freeMeta == if |old(freeMeta)| < META_MAX then old(freeMeta) + [pData] else old(freeMeta)
      ensures owner.Keys <= old(owner.Keys)
    {
      hide ClassSize;
      assert LiveOk(pData);
      DistinctFromLive(pData);
      label before:
      var keep := |freeMeta| < META_MAX;
      pData.used := 0;
      owner := owner - {pData.data};
      pData.data := null;
      pData.index := TOTAL_TYPE;
      pData.capacity := 0;
      pData.home := if keep then Meta(|freeMeta|) else Nowhere;
      if keep {
        freeMeta := freeMeta + [pData];
      }
      live := live - {pData};
      forall j, k | 0 <= j < TOTAL_TYPE && 0 <= k < |free[j]| ensures PooledOk(j, k) {
        assert old@before(PooledOk(j, k)) && free[j][k] != pData;
      }
      forall k | 0 <= k < |freeMeta| ensures MetaOk(k) {
        if freeMeta[k] != pData {
          assert old@before(MetaOk(k));
        }
      }
      forall b | b in live ensures LiveOk(b) {
        assert old@before(LiveOk(b)) && b != pData;
      }
    }

    /** GetData(szData, iLen, iSize): the block starts with a copy of the data.  All that the
        copy asks for is that the truncated size still holds it. */
    method GetDataCopy(szData: seq<Octet>, iSize: nat) returns (ret: MemPoolData)
      requires Valid() && |szData| < 0x8000_0000
      requires |szData| <= CapacityFor(if iSize < |szData| then |szData| else iSize)
      modifies this, known, owner.Keys
      ensures Valid() && fresh(known - old(known)) && ret !in old(live) && live == old(live) + {ret}
      ensures var size := if iSize < |szData| then |szData| else iSize;
              ret.capacity == CapacityFor(size) && (size <= ret.capacity <==> size < 0x8000_0000)
      ensures Formed(ret) && ret.data[..|szData|] == szData && ret.used == |szData|
      ensures forall b :: b in old(live) ==> unchanged(b) && unchanged(b.data)
      ensures fresh(owner.Keys - old(owner.Keys))
    {
      var size := if iSize < |szData| then |szData| else iSize;
      CapacityCoversIff(size);
      ret := GetDataFilled(szData, size);
    }

    method GetDataFilled(szData: seq<Octet>, size: nat) returns (ret: MemPoolData)
      requires Valid() && |szData| <= CapacityFor(size)
      modifies this, known, owner.Keys
      ensures Valid() && fresh(known - old(known)) && ret !in old(live) && live == old(live) + {ret}
      ensures ret.capacity == CapacityFor(size)
      ensures Formed(ret) && ret.data[..|szData|] == szData && ret.used == |szData|
      ensures forall b :: b in old(live) ==> unchanged(b) && unchanged(b.data)
      ensures fresh(owner.Keys - old(owner.Keys))
    {
      hide ClassSize, ClassOf, CapacityFor;
      forall b | b in live ensures LiveOk(b) {}
      ret := GetData(size);
      forall b | b in live ensures LiveOk(b) {}
      Fill(ret, szData);
    }

    /** Writing into a live block. */
    method Fill(b: MemPoolData, szData: seq<Octet>)
      requires Valid() && b in live && |szData| <= b.capacity
      requires LiveOk(b)
      modifies b`used, b.data
      ensures Valid() && b.data[..|szData|] == szData && b.used == |szData|
    {
      var data := b.data;
      forall i | 0 <= i < |szData| {
        data[i] := szData[i];
      }
      DistinctFromLive(b);
      label before:
      b.used := |szData|;
      forall j, k | 0 <= j < TOTAL_TYPE && 0 <= k < |free[j]| ensures PooledOk(j, k) {
        assert old@before(PooledOk(j, k));
      }
      forall k | 0 <= k < |freeMeta| ensures MetaOk(k) {
        assert old@before(MetaOk(k));
      }
      forall c | c in live ensures LiveOk(c) {
        assert old@before(LiveOk(c));
      }
    }

    /** ReAlloc never returns a block smaller than what is needed. */
    method ReAlloc(pData: MemPoolData?, iNeedSize: nat) returns (ret: MemPoolData)
      requires Valid() && iNeedSize < 0x8000_0000 && (pData != null ==> pData in live)
      modifies this, known
      ensures Valid() && fresh(known - old(known)) && ret in live && ret.capacity >= iNeedSize
      ensures if pData != null && old(pData.used) >= iNeedSize then ret == pData && live == old(live)
              else live == old(live) - {pData} + {ret}
    {
      CapacityCoversIff(iNeedSize);
      if pData == null {
        ret := GetData(iNeedSize);
        return;
      }
      assert LiveOk(pData);
      if pData.used >= iNeedSize {
        return pData;
      }
      Release(pData);
      ret := GetData(iNeedSize);
    }

    /** Last in, first out: a block whose list has room comes straight back. */
    method ReleaseThenGet(b: MemPoolData, size: nat) returns (ret: MemPoolData)
      requires Valid() && b in live && ListHasRoom(b.index) && ClassOf(size) == b.index
      modifies this, known
      ensures Valid() && ret == b && live == old(live) && b.data == old(b.data)
      ensures free == old(free)
    {
      var i := b.index;
      Release(b);
      ret := Reuse(i);
      assert free == old(free);
    }
  }
}
