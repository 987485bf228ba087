/** The bounded queue of include/gorm_ss_queue.h: a ring of `n` slots addressed by
    two unsigned 64-bit counters that are reduced modulo `n` only when a slot is
    touched.  `PutPre` decrements the read counter, so the live window can straddle
    the point where the counter wraps; unless `n` divides 2^64 the slots are then no
    longer consecutive. */
module Ring {
  import opened Basics

  // ---------- the window and its slots ----------

  /** Unsigned 64-bit sum or difference of two counters. */
  function Wrap(x: int): (w: nat)
    requires 0 <= x + TWO64 && x < 2 * TWO64
    ensures w < TWO64
  {
    if x < 0 then x + TWO64 else if x < TWO64 then x else x - TWO64
  }

  /** x % n, by repeated subtraction: only RemIsModulo does non-linear arithmetic. */
  ghost function Rem(x: nat, n: Pos): (r: nat)
    ensures r < n
  {
    if x < n then x else Rem(x - n, n)
  }

  lemma {:induction false} RemIsModulo(x: nat, n: Pos)
    ensures Rem(x, n) == x % n
    decreases x
  {
    if x >= n {
      RemIsModulo(x - n, n);
      assert x % n == (x - n) % n by { DropMultiple(x - n, n); }
    }
  }

  lemma DropMultiple(y: nat, n: Pos)
    ensures (y + n) % n == y % n
  {
    CongruentIff(y + n, y, n);
    DivisibleShift(1, 0, n);
  }

  /** Slot of the k-th live element when the read counter is `read`. */
  ghost function Slot(read: nat, k: nat, n: nat): (slot: nat)
    requires n > 0 && read < TWO64 && k <= TWO64
    ensures slot < n
  {
    Rem(Wrap(read + k), n)
  }

  /** No two of the `count` live elements share a slot. */
  ghost predicate Injective(read: nat, count: nat, n: nat)
    requires n > 0 && read < TWO64 && count <= TWO64
  {
    forall i, j :: 0 <= i < j < count ==> Slot(read, i, n) != Slot(read, j, n)
  }

  /** The condition a caller can test on the counters alone. */
  ghost predicate Safe(read: nat, count: nat, n: Pos) {
    Rem(TWO64, n) == 0 || read + count <= TWO64 || count <= Rem(TWO64, n)
  }

  /** A multiple of n plus a remainder in (-n, n) is divisible by n only if the remainder is 0. */
  lemma DivisibleShift(q: int, r: int, n: int)
    requires n > 0 && -n < r < n
    ensures (q * n + r) % n == 0 <==> r == 0
  {
    var x := q * n + r;
    var k := x / n - q;
    assert k * n == r - x % n;
    MultipleIsFar(k, n);
  }

  lemma CongruentIff(a: int, b: int, n: Pos)
    ensures a % n == b % n <==> (a - b) % n == 0
  {
    assert a - b == (a / n - b / n) * n + (a % n - b % n);
    DivisibleShift(a / n - b / n, a % n - b % n, n);
  }

  /** Numbers at distance less than n are never congruent modulo n. */
  lemma NearNotCongruent(x: int, y: int, n: int)
    requires n > 0 && 0 < y - x < n
    ensures x % n != y % n
  {
    CongruentIff(x, y, n);
    DivisibleShift(0, x - y, n);
  }

  lemma SmallMod(d: nat, n: nat)
    requires d < n
    ensures d % n == d
  {}

  /** x lies w - d above y: they are congruent exactly when d is the remainder of w. */
  lemma WrappedCongruent(x: int, y: int, w: nat, d: nat, n: int)
    requires n > 0 && d < n && x - y == w - d
    ensures x % n == y % n <==> w % n == d
  {
    CongruentIff(x, y, n);
    CongruentIff(w, d, n);
    SmallMod(d, n);
  }

  /** When two live elements collide: only across the wrap, at distance 2^64 mod n. */
  lemma CollideIff(read: nat, i: nat, j: nat, n: nat)
    requires 0 < n <= TWO64 && read < TWO64
    requires i < j && j - i < n && j <= TWO64
    ensures Slot(read, i, n) == Slot(read, j, n) <==>
            read + i < TWO64 <= read + j && j - i == Rem(TWO64, n)
  {
    CollideAt(Wrap(read + i), Wrap(read + j), read + i < TWO64 <= read + j, j - i, n);
  }

  lemma CollideAt(xi: nat, xj: nat, straddles: bool, d: nat, n: nat)
    requires 0 < d < n
    requires if straddles then xi - xj == TWO64 - d else xj - xi == d
    ensures Rem(xi, n) == Rem(xj, n) <==> straddles && d == Rem(TWO64, n)
  {
    RemIsModulo(xi, n);
    RemIsModulo(xj, n);
    RemIsModulo(TWO64, n);
    if straddles {
      WrappedCongruent(xi, xj, TWO64, d, n);
    } else {
      NearNotCongruent(xi, xj, n);
    }
  }

  /** The exact condition under which a window of at most n elements has distinct slots. */
  lemma SafeIffInjective(read: nat, count: nat, n: nat)
    requires 0 < n <= TWO64 && read < TWO64 && count <= n
    ensures Injective(read, count, n) <==> Safe(read, count, n)
  {
    forall i, j | 0 <= i < j < count
      ensures Slot(read, i, n) == Slot(read, j, n) <==>
              read + i < TWO64 <= read + j && j - i == Rem(TWO64, n)
    {
      CollideIff(read, i, j, n);
    }
    if !Safe(read, count, n) {
      var r := Rem(TWO64, n);
      var p := TWO64 - read;
      var i := if p > r then p - r else 0;
      assert Slot(read, i, n) == Slot(read, i + r, n);
    }
  }

  // ---------- the ring as a value ----------

  datatype State<T> = State(data: seq<T>, readIdx: nat, writeIdx: nat, nowNum: nat)

  ghost predicate Consistent<T>(s: State<T>) {
    && 0 < |s.data| <= TWO64
    && s.readIdx < TWO64
    && s.nowNum <= |s.data|
    && s.writeIdx == Wrap(s.readIdx + s.nowNum)
  }

  /** The elements a reader would take, in order, if nothing more were put. */
  ghost function Live<T>(s: State<T>): (q: seq<T>)
    requires Consistent(s)
    ensures |q| == s.nowNum
  {
    seq(s.nowNum, k requires 0 <= k < s.nowNum => s.data[Slot(s.readIdx, k, |s.data|)])
  }

  ghost predicate SafeWindow<T>(s: State<T>)
    requires |s.data| > 0
  {
    Safe(s.readIdx, s.nowNum, |s.data|)
  }

  ghost function PutBack<T>(s: State<T>, x: T): (r: State<T>)
    requires Consistent(s)
    ensures Consistent(r) && |r.data| == |s.data|
  {
    if s.nowNum == |s.data| then s else
    var r := s.(data := s.data[Rem(s.writeIdx, |s.data|) := x], writeIdx := Wrap(s.writeIdx + 1),
        nowNum := s.nowNum + 1);
    r
  }

  ghost function PutFront<T>(s: State<T>, x: T): (r: State<T>)
    requires Consistent(s)
    ensures Consistent(r) && |r.data| == |s.data|
  {
    if s.nowNum == |s.data| then s else
    var readIdx := Wrap(s.readIdx - 1);
    s.(data := s.data[Rem(readIdx, |s.data|) := x], readIdx := readIdx, nowNum := s.nowNum + 1)
  }

  ghost function TakeFront<T>(s: State<T>): (r: State<T>)
    requires Consistent(s)
    ensures Consistent(r) && |r.data| == |s.data|
  {
    if s.nowNum == 0 then s else
    s.(readIdx := Wrap(s.readIdx + 1), nowNum := s.nowNum - 1)
  }

  // ---------- one operation: exact effect and exact refinement condition ----------

  /** What Put does to the live elements in every case: it appends x, and every live
      element whose slot coincides with the new one is replaced by x. */
  lemma PutBackEffect<T>(s: State<T>, x: T)
    requires Consistent(s) && s.nowNum < |s.data|
    ensures var n, r := |s.data|, PutBack(s, x);
            && r.readIdx == s.readIdx && |Live(r)| == s.nowNum + 1 && Live(r)[s.nowNum] == x
            && forall k :: 0 <= k < s.nowNum ==>
                 Live(r)[k] == if Slot(s.readIdx, k, n) == Slot(s.readIdx, s.nowNum, n) then x else Live(s)[k]
  {}

  /** Likewise for PutPre, which prepends x. */
  lemma PutFrontEffect<T>(s: State<T>, x: T)
    requires Consistent(s) && s.nowNum < |s.data|
    ensures var n, r := |s.data|, PutFront(s, x);
            && r.readIdx == Wrap(s.readIdx - 1) && |Live(r)| == s.nowNum + 1 && Live(r)[0] == x
            && forall k :: 0 < k <= s.nowNum ==>
                 Live(r)[k] == if Slot(r.readIdx, 0, n) == Slot(r.readIdx, k, n) then x else Live(s)[k - 1]
  {
    var r := PutFront(s, x);
    assert Slot(r.readIdx, 0, |s.data|) == Rem(r.readIdx, |s.data|);
    forall k | 0 < k <= s.nowNum
      ensures Slot(r.readIdx, k, |s.data|) == Slot(s.readIdx, k - 1, |s.data|)
    {
    }
  }

  lemma PutBackRefines<T>(s: State<T>, x: T)
    requires Consistent(s) && s.nowNum < |s.data| && Safe(s.readIdx, s.nowNum + 1, |s.data|)
    ensures Live(PutBack(s, x)) == Live(s) + [x]
  {
    SafeIffInjective(s.readIdx, s.nowNum + 1, |s.data|);
    PutBackEffect(s, x);
  }

  lemma PutFrontRefines<T>(s: State<T>, x: T)
    requires Consistent(s) && s.nowNum < |s.data| && Safe(Wrap(s.readIdx - 1), s.nowNum + 1, |s.data|)
    ensures Live(PutFront(s, x)) == [x] + Live(s)
  {
    SafeIffInjective(Wrap(s.readIdx - 1), s.nowNum + 1, |s.data|);
    PutFrontEffect(s, x);
  }

  /** If appending makes the window unsafe, the new slot is that of a live element. */
  lemma BackCollision<T>(s: State<T>) returns (i: nat)
    requires Consistent(s) && s.nowNum < |s.data| && SafeWindow(s)
    requires !Safe(s.readIdx, s.nowNum + 1, |s.data|)
    ensures i < s.nowNum && Slot(s.readIdx, i, |s.data|) == Slot(s.readIdx, s.nowNum, |s.data|)
  {
    var n := |s.data|;
    SafeIffInjective(s.readIdx, s.nowNum, n);
    SafeIffInjective(s.readIdx, s.nowNum + 1, n);
    var i', j :| 0 <= i' < j < s.nowNum + 1 && Slot(s.readIdx, i', n) == Slot(s.readIdx, j, n);
    i := i';
  }

  /** An element keeps its slot when the window grows to the front. */
  lemma SameSlot(read: nat, k: nat, n: nat)
    requires n > 0 && read < TWO64 && 0 < k <= TWO64
    ensures Slot(Wrap(read - 1), k, n) == Slot(read, k - 1, n)
  {}

  /** If prepending makes the window unsafe, the new slot is that of a live element. */
  lemma FrontCollision<T>(s: State<T>) returns (j: nat)
    requires Consistent(s) && s.nowNum < |s.data| && SafeWindow(s)
    requires !Safe(Wrap(s.readIdx - 1), s.nowNum + 1, |s.data|)
    ensures 0 < j <= s.nowNum
    ensures Slot(Wrap(s.readIdx - 1), 0, |s.data|) == Slot(Wrap(s.readIdx - 1), j, |s.data|)
  {
    var n, read := |s.data|, Wrap(s.readIdx - 1);
    SafeIffInjective(s.readIdx, s.nowNum, n);
    SafeIffInjective(read, s.nowNum + 1, n);
    hide Slot, Safe, Wrap;
    var i, j' :| 0 <= i < j' < s.nowNum + 1 && Slot(read, i, n) == Slot(read, j', n);
    j := j';
    if i > 0 {
      SameSlot(s.readIdx, i, n);
      SameSlot(s.readIdx, j, n);
      assert false;
    }
  }

  /** What happens when the grown window is not safe: exactly one live element, the one 2^64 mod n
      places behind, is replaced by a second copy of the new one. */
  lemma PutFrontOverwrites<T>(s: State<T>, x: T)
    requires Consistent(s) && s.nowNum < |s.data| && SafeWindow(s)
    requires !Safe(Wrap(s.readIdx - 1), s.nowNum + 1, |s.data|)
    ensures var m := Rem(TWO64, |s.data|);
            0 < m <= s.nowNum && Live(PutFront(s, x)) == [x] + Live(s)[m - 1 := x]
  {
    var n, read, m := |s.data|, Wrap(s.readIdx - 1), Rem(TWO64, |s.data|);
    var j := FrontCollision(s);
    CollideIff(read, 0, j, n);
    PutFrontEffect(s, x);
    forall k | 0 < k <= s.nowNum ensures Slot(read, 0, n) == Slot(read, k, n) <==> k == m {
      CollideIff(read, 0, k, n);
    }
  }

  lemma PutBackOverwrites<T>(s: State<T>, x: T)
    requires Consistent(s) && s.nowNum < |s.data| && SafeWindow(s)
    requires !Safe(s.readIdx, s.nowNum + 1, |s.data|)
    ensures var m := Rem(TWO64, |s.data|);
            0 < m <= s.nowNum && Live(PutBack(s, x)) == Live(s)[s.nowNum - m := x] + [x]
  {
    var n, m := |s.data|, Rem(TWO64, |s.data|);
    var i := BackCollision(s);
    CollideIff(s.readIdx, i, s.nowNum, n);
    PutBackEffect(s, x);
    forall k | 0 <= k < s.nowNum ensures Slot(s.readIdx, k, n) == Slot(s.readIdx, s.nowNum, n) <==> k == s.nowNum - m {
      CollideIff(s.readIdx, k, s.nowNum, n);
    }
  }

  /** A window that is not safe holds one element at two positions. */
  lemma UnsafeRepeats<T>(s: State<T>) returns (i: nat, j: nat)
    requires Consistent(s) && !SafeWindow(s)
    ensures i < j < s.nowNum && Live(s)[i] == Live(s)[j]
  {
    SafeIffInjective(s.readIdx, s.nowNum, |s.data|);
    hide Slot, Safe;
    i, j :| 0 <= i < j < s.nowNum && Slot(s.readIdx, i, |s.data|) == Slot(s.readIdx, j, |s.data|);
  }

  /** Take is pop-front with no condition. */
  lemma TakeFrontRefines<T>(s: State<T>)
    requires Consistent(s) && s.nowNum > 0
    ensures Live(TakeFront(s)) == Live(s)[1..]
    ensures Live(s)[0] == s.data[Rem(s.readIdx, |s.data|)]
  {
    assert forall k: nat {:trigger Live(TakeFront(s))[k]} :: k < s.nowNum - 1 ==>
        Live(TakeFront(s))[k] == Live(s)[k + 1];
  }

  // ---------- the three calls ----------

  datatype Op<T> = Put(x: T) | PutPre(x: T) | Take
  datatype Out<T> = Stored(ok: bool) | Nothing | Taken(x: T)

  ghost function RingStep<T>(s: State<T>, op: Op<T>): (State<T>, Out<T>)
    requires Consistent(s)
  {
    match op
    case Put(x) => (PutBack(s, x), Stored(s.nowNum < |s.data|))
    case PutPre(x) => (PutFront(s, x), Stored(s.nowNum < |s.data|))
    case Take => (TakeFront(s), if s.nowNum == 0 then Nothing else Taken(s.data[Rem(s.readIdx, |s.data|)]))
  }

  // ---------- the ring as the source writes it ----------

  class SsQueue<T(0)> {
    const n: nat
    const data: array<T>
    var readIdx: nat
    var writeIdx: nat
    var nowNum: nat

    ghost function Snapshot(): State<T>
      reads this, data
    {
      State(data[..], readIdx, writeIdx, nowNum)
    }

    ghost predicate Valid()
      reads this, data
    {
      data.Length == n && Consistent(Snapshot())
    }

    constructor (capacity: nat)
      requires 0 < capacity <= TWO64
      ensures Valid() && n == capacity && fresh(data)
      ensures readIdx == 0 && nowNum == 0 && Live(Snapshot()) == []
    {
      n := capacity;
      data := new T[capacity];
      readIdx, writeIdx, nowNum := 0, 0, 0;
    }

    method Put(x: T) returns (ok: bool)
      requires Valid()
      modifies this`writeIdx, this`nowNum, data
      ensures Valid()
      ensures (Snapshot(), Stored(ok)) == RingStep(old(Snapshot()), Op.Put(x))
    {
      if nowNum == n {
        return false;
      }
      RemIsModulo(writeIdx, n);
      var idx := writeIdx % n;
      data[idx] := x;
      writeIdx := Wrap(writeIdx + 1);
      nowNum := nowNum + 1;
      return true;
    }

    method PutPre(x: T) returns (ok: bool)
      requires Valid()
      modifies this`readIdx, this`nowNum, data
      ensures Valid()
      ensures (Snapshot(), Stored(ok)) == RingStep(old(Snapshot()), Op.PutPre(x))
    {
      if nowNum == n {
        return false;
      }
      readIdx := Wrap(readIdx - 1);
      RemIsModulo(readIdx, n);
      var idx := readIdx % n;
      data[idx] := x;
      nowNum := nowNum + 1;
      return true;
    }

    method Take() returns (ok: bool, out: T)
      requires Valid()
      modifies this`readIdx, this`nowNum
      ensures Valid()
      ensures (Snapshot(), if ok then Taken(out) else Nothing) == RingStep(old(Snapshot()), Op.Take)
    {
      if nowNum == 0 {
        ok, out := false, *;
        return;
      }
      RemIsModulo(readIdx, n);
      var idx := readIdx % n;
      out := data[idx];
      readIdx := Wrap(readIdx + 1);
      nowNum := nowNum - 1;
      ok := true;
    }
  }
}
