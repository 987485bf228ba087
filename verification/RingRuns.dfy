/** The ring next to a double-ended queue: exactly when one call gives the same, and whole runs. */
module RingRuns {
  import opened Basics
  import opened Ring

  // ---------- one call ----------

  /** Put is push-back, whatever is put, exactly when the grown window is safe. */
  lemma PutBackRefinesIff<T>(s: State<T>, a: T, b: T)
    requires Consistent(s) && s.nowNum < |s.data| && SafeWindow(s) && a != b
    ensures (Live(PutBack(s, a)) == Live(s) + [a] && Live(PutBack(s, b)) == Live(s) + [b]) <==>
            Safe(s.readIdx, s.nowNum + 1, |s.data|)
  {
    if Safe(s.readIdx, s.nowNum + 1, |s.data|) {
      PutBackRefines(s, a);
      PutBackRefines(s, b);
    } else {
      var i := BackCollision(s);
      PutBackEffect(s, a);
      PutBackEffect(s, b);
      assert Live(PutBack(s, a))[i] == a && Live(PutBack(s, b))[i] == b;
      assert (Live(s) + [a])[i] == Live(s)[i] == (Live(s) + [b])[i];
    }
  }

  /** PutPre is push-front, whatever is put, exactly when the grown window is safe. */
  lemma PutFrontRefinesIff<T>(s: State<T>, a: T, b: T)
    requires Consistent(s) && s.nowNum < |s.data| && SafeWindow(s) && a != b
    ensures (Live(PutFront(s, a)) == [a] + Live(s) && Live(PutFront(s, b)) == [b] + Live(s)) <==>
            Safe(Wrap(s.readIdx - 1), s.nowNum + 1, |s.data|)
  {
    if Safe(Wrap(s.readIdx - 1), s.nowNum + 1, |s.data|) {
      PutFrontRefines(s, a);
      PutFrontRefines(s, b);
    } else {
      var j := FrontCollision(s);
      PutFrontEffect(s, a);
      PutFrontEffect(s, b);
      assert Live(PutFront(s, a))[j] == a && Live(PutFront(s, b))[j] == b;
      assert ([a] + Live(s))[j] == Live(s)[j - 1] == ([b] + Live(s))[j];
    }
  }

  // ---------- whole runs ----------

  /** The reference: a double-ended queue of at most n elements. */
  function DequeStep<T>(q: seq<T>, n: nat, op: Op<T>): (seq<T>, Out<T>) {
    match op
    case Put(x) => if |q| < n then (q + [x], Stored(true)) else (q, Stored(false))
    case PutPre(x) => if |q| < n then ([x] + q, Stored(true)) else (q, Stored(false))
    case Take => if q == [] then (q, Nothing) else (q[1..], Taken(q[0]))
  }

  ghost function RingRun<T>(s: State<T>, ops: seq<Op<T>>): (r: (State<T>, seq<Out<T>>))
    requires Consistent(s)
    ensures Consistent(r.0) && |r.0.data| == |s.data|
    decreases |ops|
  {
    if ops == [] then (s, []) else
    var (s1, out) := RingStep(s, ops[0]);
    var (s2, outs) := RingRun(s1, ops[1..]);
    (s2, [out] + outs)
  }

  function DequeRun<T>(q: seq<T>, n: nat, ops: seq<Op<T>>): (seq<T>, seq<Out<T>>)
    decreases |ops|
  {
    if ops == [] then (q, []) else
    var (q1, out) := DequeStep(q, n, ops[0]);
    var (q2, outs) := DequeRun(q1, n, ops[1..]);
    (q2, [out] + outs)
  }

  /** Every window the run passes through is safe: a condition on the counters only. */
  ghost predicate AlwaysSafe<T>(s: State<T>, ops: seq<Op<T>>)
    requires Consistent(s)
    decreases |ops|
  {
    SafeWindow(s) && (ops == [] || AlwaysSafe(RingStep(s, ops[0]).0, ops[1..]))
  }

  lemma StepRefines<T>(s: State<T>, op: Op<T>)
    requires Consistent(s) && SafeWindow(s) && SafeWindow(RingStep(s, op).0)
    ensures DequeStep(Live(s), |s.data|, op) == (Live(RingStep(s, op).0), RingStep(s, op).1)
  {
    match op
    case Put(x) => if s.nowNum < |s.data| { PutBackRefines(s, x); }
    case PutPre(x) => if s.nowNum < |s.data| { PutFrontRefines(s, x); }
    case Take => if s.nowNum > 0 { TakeFrontRefines(s); }
  }

  /** The ring refines the deque over every run whose windows stay safe: same final
      contents and the same answer from every single call. */
  lemma {:induction false} RunRefines<T>(s: State<T>, ops: seq<Op<T>>)
    requires Consistent(s) && AlwaysSafe(s, ops)
    ensures DequeRun(Live(s), |s.data|, ops) == (Live(RingRun(s, ops).0), RingRun(s, ops).1)
    decreases |ops|
  {
    if ops != [] {
      StepRefines(s, ops[0]);
      RunRefines(RingStep(s, ops[0]).0, ops[1..]);
    }
  }

  lemma {:induction false} PowerOfTwoAlwaysSafe<T>(s: State<T>, ops: seq<Op<T>>)
    requires Consistent(s) && Rem(TWO64, |s.data|) == 0
    ensures AlwaysSafe(s, ops)
    decreases |ops|
  {
    if ops != [] {
      PowerOfTwoAlwaysSafe(RingStep(s, ops[0]).0, ops[1..]);
    }
  }

  /** A capacity dividing 2^64, like that of the response list, needs no condition at all. */
  lemma ResponseListRefines<T>(s: State<T>, ops: seq<Op<T>>)
    requires Consistent(s) && |s.data| == RESPONSE_CAPACITY
    ensures DequeRun(Live(s), |s.data|, ops) == (Live(RingRun(s, ops).0), RingRun(s, ops).1)
  {
    RemIsModulo(TWO64, RESPONSE_CAPACITY);
    PowerOfTwoAlwaysSafe(s, ops);
    RunRefines(s, ops);
  }

  /** 10240 does not divide 2^64: a straddling window of the send queue is safe up to 4096. */
  lemma SendQueueSafeIff(read: nat, count: nat)
    requires read < TWO64 && count <= QUEUE_CAPACITY
    ensures Injective(read, count, QUEUE_CAPACITY) <==> read + count <= TWO64 || count <= 4096
  {
    SafeIffInjective(read, count, QUEUE_CAPACITY);
    RemIsModulo(TWO64, QUEUE_CAPACITY);
  }

  function Puts<T>(xs: seq<T>): (ops: seq<Op<T>>)
    ensures |ops| == |xs|
  {
    if xs == [] then [] else [Put(xs[0])] + Puts(xs[1..])
  }

  lemma {:induction false} CountersAfterPuts<T>(s: State<T>, xs: seq<T>)
    requires Consistent(s) && s.nowNum + |xs| <= |s.data|
    ensures var r := RingRun(s, Puts(xs)).0;
            r.readIdx == s.readIdx && r.nowNum == s.nowNum + |xs|
                && (xs != [] ==> Live(r)[r.nowNum - 1] == xs[|xs| - 1])
    decreases |xs|
  {
    if xs != [] {
      var s1 := PutBack(s, xs[0]);
      PutBackEffect(s, xs[0]);
      CountersAfterPuts(s1, xs[1..]);
      assert RingRun(s, Puts(xs)).0 == RingRun(s1, Puts(xs[1..])).0 by {
        assert Puts(xs)[1..] == Puts(xs[1..]);
      }
    }
  }

  /** The first use of the send queue is a PutPre of the handshake at read counter 0.
      If 4096 requests are then put before anything is taken, the handshake is gone: the
      next Take hands out the last request in its place, and later hands it out again. */
  lemma HandshakeOverwritten<T>(s: State<T>, handshake: T, xs: seq<T>)
    requires Consistent(s) && |s.data| == QUEUE_CAPACITY && s.readIdx == 0 && s.nowNum == 0
    requires |xs| == 4096
    ensures var r := RingRun(PutFront(s, handshake), Puts(xs)).0;
            r.nowNum == 4097 && Live(r)[0] == xs[4095] && Live(r)[4096] == xs[4095]
  {
    var f := PutFront(s, handshake);
    assert f.readIdx == TWO64 - 1;
    CountersAfterPuts(f, xs);
    var r := RingRun(f, Puts(xs)).0;
    RemIsModulo(TWO64 - 1, QUEUE_CAPACITY);
    RemIsModulo(4095, QUEUE_CAPACITY);
    assert Slot(r.readIdx, 0, 10240) == Slot(r.readIdx, 4096, 10240);
  }
}
