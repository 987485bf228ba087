/** The connection with the send queue it really has: the ring.  While the ring's window is
    safe it moves exactly like the state machine of module Connection, and what that machine's
    runs keep holds of the ring; the window is safe exactly as long as the queue is not longer
    than 4096, or not longer than the number of requests accepted so far. */
module RingConnection {
  import opened Basics
  import opened Connection
  import opened Conservation
  import opened ResendOrder
  import opened OutputStream
  import Ring

  /** All but the send queue is in `rest`, whose own queue is not used. */
  datatype Parts = RingState(rest: State, ring: Ring.State<Request>)

  /** The ring has the send queue's capacity, and its counters agree. */
  ghost predicate Wf(r: Parts) {
    Ring.Consistent(r.ring) && |r.ring.data| == QUEUE_CAPACITY
  }

  /** Some such state. */
  ghost function Blank(): Parts {
    RingState(State(false, [], None, 0, map[], [], Starting, [], [], [], [], [], []),
              Ring.State(seq(QUEUE_CAPACITY, _ => Request(0, false, false, [], 0)), 0, 0, 0))
  }

  type RingState = r: Parts | Wf(r) ghost witness Blank()

  /** The queue as a sequence: what would be taken if nothing more were put. */
  ghost function Abs(r: RingState): State {
    r.rest.(queue := Ring.Live(r.ring))
  }

  // ---------- operations ----------

  ghost function RingSend(r: RingState, x: Request, now: nat): (t: (RingState, bool)) {
    if r.ring.nowNum == QUEUE_CAPACITY then (r, false) else
    var y := x.(tms := now);
    (RingState(r.rest.(accepted := r.rest.accepted + [y]), Ring.PutBack(r.ring, y)), true)
  }

  ghost function RingPutPre(r: RingState, x: Request): (t: RingState) {
    if r.ring.nowNum == QUEUE_CAPACITY then r.(rest := r.rest.(lost := r.rest.lost + [x]))
    else r.(ring := Ring.PutFront(r.ring, x))
  }

  ghost function RingGetNext(r: RingState): (t: RingState) {
    if r.rest.sending.Some? || r.ring.nowNum == 0 then r else
    RingState(Taking(r.rest, r.ring.data[Ring.Rem(r.ring.readIdx, QUEUE_CAPACITY)]), Ring.TakeFront(r.ring))
  }

  ghost function RingWrite(r: RingState, n: int): (t: RingState) {
    var t := RingGetNext(r);
    t.(rest := WriteSome(t.rest, n))
  }

  ghost function RingPutAllPre(r: RingState, v: seq<Request>): (t: RingState)
    decreases |v|
  {
    if v == [] then r else RingPutAllPre(RingPutPre(r, v[0]), v[1..])
  }

  ghost function RingPreSend(r: RingState, x: Request, now: nat): (t: RingState) {
    if r.ring.nowNum == QUEUE_CAPACITY then r else r.(ring := Ring.PutFront(r.ring, x.(tms := now)))
  }

  ghost function RingResend(r: RingState, order: seq<nat>, now: nat, handshake: Option<Request>): (t: RingState)
    requires WalksMap(order, r.rest.pending)
  {
    if |r.rest.pending| == 0 then r else
    var v := SortDescending(Stamped(r.rest.pending, order, now));
    var t := RingPutAllPre(r.(rest := r.rest.(pending := map[])), v);
    if handshake.None? then t else RingPreSend(t, handshake.value, now)
  }

  ghost function RingNext(r: RingState, e: Event): (t: RingState)
    requires Enabled(r.rest, e)
  {
    match e
    case Submit(x, now) => RingSend(r, x, now).0
    case CanWrite(n) => RingWrite(r, n)
    case Reconnected(order, now, h) => RingResend(r.(rest := Reset(r.rest).(up := true)), order, now, h)
    case _ => r.(rest := Next(r.rest, e))
  }

  /** After ConnectToServer on a new ring: the PutPre of the handshake has wrapped the read counter. */
  ghost predicate RingInit(r: RingState) {
    Init(Abs(r)) && r.ring.writeIdx == 0
  }

  ghost predicate RingRuns(r: RingState, es: seq<Event>)
    decreases |es|
  {
    es == [] || (Enabled(r.rest, es[0]) && RingRuns(RingNext(r, es[0]), es[1..]))
  }

  ghost function RingEnd(r: RingState, es: seq<Event>): (t: RingState)
    requires RingRuns(r, es)
    decreases |es|
  {
    if es == [] then r else RingEnd(RingNext(r, es[0]), es[1..])
  }

  // ---------- the ring next to the deque ----------

  /** Equal but for the contents of the queue; and equal in that too if the window is safe. */
  ghost predicate Tracks(r: RingState, s: State) {
    && r.rest.(queue := s.queue) == s && r.ring.nowNum == |s.queue|
    && (Ring.SafeWindow(r.ring) ==> Ring.Live(r.ring) == s.queue)
  }

  /** Growing the window at either end does not make it safe. */
  lemma ShrinkingKeepsSafe(ring: Ring.State<Request>, x: Request)
    requires Ring.Consistent(ring) && ring.nowNum < |ring.data|
    ensures Ring.SafeWindow(Ring.PutFront(ring, x)) ==> Ring.SafeWindow(ring)
    ensures Ring.SafeWindow(Ring.PutBack(ring, x)) ==> Ring.SafeWindow(ring)
  {}

  lemma PutPreTracks(r: RingState, s: State, x: Request)
    requires Tracks(r, s)
    ensures Tracks(RingPutPre(r, x), PutPre(s, x))
  {
    if r.ring.nowNum < QUEUE_CAPACITY {
      ShrinkingKeepsSafe(r.ring, x);
      if Ring.SafeWindow(Ring.PutFront(r.ring, x)) { Ring.PutFrontRefines(r.ring, x); }
    }
  }

  lemma PreSendTracks(r: RingState, s: State, x: Request, now: nat)
    requires Tracks(r, s)
    ensures Tracks(RingPreSend(r, x, now), PreSend(s, x, now))
  {
    if r.ring.nowNum < QUEUE_CAPACITY {
      var y := x.(tms := now);
      ShrinkingKeepsSafe(r.ring, y);
      if Ring.SafeWindow(Ring.PutFront(r.ring, y)) { Ring.PutFrontRefines(r.ring, y); }
    }
  }

  lemma SendTracks(r: RingState, s: State, x: Request, now: nat)
    requires Tracks(r, s)
    ensures Tracks(RingSend(r, x, now).0, Send(s, x, now).0) && RingSend(r, x, now).1 == Send(s, x, now).1
  {
    if r.ring.nowNum < QUEUE_CAPACITY {
      var y := x.(tms := now);
      ShrinkingKeepsSafe(r.ring, y);
      if Ring.SafeWindow(Ring.PutBack(r.ring, y)) { Ring.PutBackRefines(r.ring, y); }
    }
  }

  lemma {:induction false} PutAllPreTracks(r: RingState, s: State, v: seq<Request>)
    requires Tracks(r, s)
    ensures Tracks(RingPutAllPre(r, v), PutAllPre(s, v))
    decreases |v|
  {
    if v != [] {
      PutPreTracks(r, s, v[0]);
      hide Tracks, RingPutPre, PutPre;
      PutAllPreTracks(RingPutPre(r, v[0]), PutPre(s, v[0]), v[1..]);
    }
  }

  lemma GetNextTracks(r: RingState, s: State)
    requires Tracks(r, s) && Ring.SafeWindow(r.ring)
    ensures Tracks(RingGetNext(r), GetNext(s))
  {
    if r.rest.sending.None? && r.ring.nowNum > 0 {
      Ring.TakeFrontRefines(r.ring);
    }
  }

  lemma {:induction false} CheckIgnoresQueue(s: State, q: seq<Request>, order: seq<nat>, now: nat)
    ensures Check(s.(queue := q), order, now) == Check(s, order, now).(queue := q)
    ensures Check(s, order, now).queue == s.queue
    decreases |order|
  {
    if order != [] {
      CheckIgnoresQueue(CheckEntry(s, order[0], now), q, order[1..], now);
    }
  }

  lemma ResendTracks(r: RingState, s: State, order: seq<nat>, now: nat, handshake: Option<Request>)
    requires Tracks(r, s) && WalksMap(order, s.pending)
    ensures Tracks(RingResend(r, order, now, handshake), Resend(s, order, now, handshake))
  {
    if |s.pending| != 0 {
      var v := SortDescending(Stamped(s.pending, order, now));
      var r0, s0 := r.(rest := r.rest.(pending := map[])), s.(pending := map[]);
      hide SortDescending, Stamped, RingPutAllPre, PutAllPre, RingPreSend, PreSend, WalksMap;
      assert Tracks(r0, s0);
      hide Tracks;
      PutAllPreTracks(r0, s0, v);
      if handshake.Some? {
        PreSendTracks(RingPutAllPre(r0, v), PutAllPre(s0, v), handshake.value, now);
      }
    }
  }

  /** From a safe window every step of the ring machine is the step of the deque machine, but
      for the queue if the step makes the window unsafe. */
  lemma StepTracks(r: RingState, e: Event)
    requires Ring.SafeWindow(r.ring) && Enabled(r.rest, e)
    ensures Enabled(Abs(r), e) && Tracks(RingNext(r, e), Next(Abs(r), e))
  {
    var s := Abs(r);
    assert Tracks(r, s);
    hide RingSend, Send, RingGetNext, GetNext, RingResend, Resend, WriteSome;
    match e
    case Submit(x, now) => SendTracks(r, s, x, now);
    case CanWrite(n) =>
      GetNextTracks(r, s);
      WriteSomeIgnoresQueue(RingGetNext(r).rest, GetNext(s).queue, n);
    case Tick(order, now) => CheckIgnoresQueue(r.rest, s.queue, order, now);
    case Reconnected(order, now, h) => ResendTracks(r.(rest := Reset(r.rest).(up := true)), Reset(s).(up := true),
        order, now, h);
    case _ =>
  }

  lemma WriteSomeIgnoresQueue(s: State, q: seq<Request>, n: int)
    ensures WriteSome(s.(queue := q), n) == WriteSome(s, n).(queue := q)
  {}

  // ---------- when the window is safe ----------

  /** The write counter counts the accepted requests. */
  ghost predicate Counted(r: RingState) {
    r.ring.writeIdx == |r.rest.accepted| % TWO64
  }

  /** What a caller can check: at most 4096 requests are queued, or no more than were ever
      accepted (modulo 2^64), which handshakes in the queue can violate. */
  predicate Fits(count: nat, accepted: nat) {
    var w := accepted % TWO64;
    count <= 4096 || w == 0 || count <= w
  }

  ghost predicate Within(r: RingState) {
    Fits(r.ring.nowNum, |r.rest.accepted|)
  }

  lemma WithinIffSafe(r: RingState)
    requires Counted(r)
    ensures Within(r) <==> Ring.SafeWindow(r.ring)
  {
    Ring.RemIsModulo(TWO64, QUEUE_CAPACITY);
  }

  lemma OneMoreAccepted(n: nat)
    ensures (n + 1) % TWO64 == Ring.Wrap(n % TWO64 + 1)
  {}

  lemma {:induction false} PutAllPreCounts(r: RingState, v: seq<Request>)
    ensures var t := RingPutAllPre(r, v);
            t.ring.writeIdx == r.ring.writeIdx && t.rest.accepted == r.rest.accepted && t.rest.queue == r.rest.queue
    decreases |v|
  {
    if v != [] {
      PutAllPreCounts(RingPutPre(r, v[0]), v[1..]);
    }
  }

  lemma StepCounts(r: RingState, e: Event)
    requires Counted(r) && Enabled(r.rest, e)
    ensures Counted(RingNext(r, e))
  {
    hide WriteSome, Check, Receive, SortDescending, Stamped, RingPutAllPre;
    match e
    case Submit(x, now) => OneMoreAccepted(|r.rest.accepted|);
    case CanWrite(n) => WriteSomeAccepts(RingGetNext(r).rest, n);
    case Tick(order, now) => CheckShrinks(r.rest, order, now);
    case Frame(f) => ReceiveAccepts(r.rest, f);
    case Reconnected(order, now, h) =>
      var r0 := r.(rest := Reset(r.rest).(up := true, pending := map[]));
      PutAllPreCounts(r0, SortDescending(Stamped(r.rest.pending, order, now)));
    case _ =>
  }

  lemma WriteSomeAccepts(s: State, n: int)
    ensures WriteSome(s, n).accepted == s.accepted
  {}

  lemma ReceiveAccepts(s: State, f: Response)
    ensures Receive(s, f).accepted == s.accepted
  {}

  // ---------- whole runs ----------

  ghost predicate AlwaysWithin(r: RingState, es: seq<Event>)
    requires RingRuns(r, es)
    decreases |es|
  {
    Within(r) && (es == [] || AlwaysWithin(RingNext(r, es[0]), es[1..]))
  }

  /** In every run that stays within the bound the ring is the deque: the same state, the same
      queue, after every step. */
  lemma {:induction false} RingRunRefines(r: RingState, es: seq<Event>)
    requires Counted(r) && RingRuns(r, es) && AlwaysWithin(r, es)
    ensures Runs(Abs(r), es) && Abs(RingEnd(r, es)) == End(Abs(r), es) && Counted(RingEnd(r, es))
    decreases |es|
  {
    hide RingNext, Next, Within, Enabled;
    if es != [] {
      OneStepRefines(r, es[0]);
      RingRunRefines(RingNext(r, es[0]), es[1..]);
    }
  }

  lemma {:induction false} RunCounts(r: RingState, es: seq<Event>)
    requires Counted(r) && RingRuns(r, es)
    ensures Counted(RingEnd(r, es))
    decreases |es|
  {
    hide RingNext, Enabled;
    if es != [] {
      StepCounts(r, es[0]);
      RunCounts(RingNext(r, es[0]), es[1..]);
    }
  }

  /** The bound is needed in every reachable state: outside it the ring holds one request at two
      positions. */
  lemma OutsideTheBound(r: RingState, es: seq<Event>) returns (i: nat, j: nat)
    requires RingInit(r) && RingRuns(r, es) && !Within(RingEnd(r, es))
    ensures var q := Ring.Live(RingEnd(r, es).ring); i < j < |q| && q[i] == q[j]
  {
    InitCounted(r);
    RunCounts(r, es);
    hide RingEnd, RingRuns, Within;
    WithinIffSafe(RingEnd(r, es));
    i, j := Ring.UnsafeRepeats(RingEnd(r, es).ring);
  }

  lemma OneStepRefines(r: RingState, e: Event)
    requires Counted(r) && Enabled(r.rest, e) && Within(r)
    ensures Enabled(Abs(r), e) && Counted(RingNext(r, e))
    ensures Within(RingNext(r, e)) ==> Abs(RingNext(r, e)) == Next(Abs(r), e)
  {
    hide RingNext, Next, Within, Enabled;
    WithinIffSafe(r);
    StepTracks(r, e);
    StepCounts(r, e);
    WithinIffSafe(RingNext(r, e));
  }

  lemma InitCounted(r: RingState)
    requires RingInit(r)
    ensures Counted(r) && Within(r)
  {}

  ghost predicate AlwaysFreshIds(r: RingState, es: seq<Event>)
    requires RingRuns(r, es)
    decreases |es|
  {
    es == [] || (Fresh(Abs(r), es[0]) && AlwaysFreshIds(RingNext(r, es[0]), es[1..]))
  }

  ghost predicate AlwaysHasRoom(r: RingState, es: seq<Event>)
    requires RingRuns(r, es)
    decreases |es|
  {
    es == [] || (HasRoom(Abs(r), es[0]) && AlwaysHasRoom(RingNext(r, es[0]), es[1..]))
  }

  ghost predicate AlwaysAscending(r: RingState, es: seq<Event>)
    requires RingRuns(r, es)
    decreases |es|
  {
    es == [] || (Ascends(Abs(r), es[0]) && AlwaysAscending(RingNext(r, es[0]), es[1..]))
  }

  lemma {:induction false} ConditionsCarryOver(r: RingState, es: seq<Event>)
    requires Counted(r) && RingRuns(r, es) && AlwaysWithin(r, es)
    ensures Runs(Abs(r), es)
    ensures AlwaysFreshIds(r, es) <==> AlwaysFresh(Abs(r), es)
    ensures AlwaysHasRoom(r, es) <==> AlwaysRoom(Abs(r), es)
    ensures AlwaysAscending(r, es) <==> AlwaysAscends(Abs(r), es)
    decreases |es|
  {
    hide RingNext, Next, Within, Enabled, Fresh, HasRoom, Ascends, Abs;
    if es != [] {
      OneStepRefines(r, es[0]);
      ConditionsCarryOver(RingNext(r, es[0]), es[1..]);
    }
  }

  /** Conservation, with the ring as the queue: after any run with fresh ids, whatever mix of
      partial writes, unknown, duplicate or failed responses, timeouts and reconnections, each
      accepted id that wants a callback is in exactly one of the ring, the map, the completed
      and the lost; no other id is anywhere; nothing completes twice. */
  lemma ConservationOverRing(r: RingState, es: seq<Event>)
    requires RingInit(r) && RingRuns(r, es) && AlwaysWithin(r, es) && AlwaysFreshIds(r, es)
    ensures var t := RingEnd(r, es);
            var q := Ring.Live(t.ring);
            && (forall x :: x in CbIds(t.rest.accepted) ==>
                  CbIds(q)[x] + PendingIds(t.rest.pending)[x] + CompletedIds(t.rest.completed)[x]
                      + CbIds(t.rest.lost)[x] == 1)
            && (forall x :: x !in CbIds(t.rest.accepted) ==>
                  x !in CbIds(q) && x !in PendingIds(t.rest.pending) && x !in CompletedIds(t.rest.completed)
                      && x !in CbIds(t.rest.lost))
            && (forall x :: CompletedIds(t.rest.completed)[x] <= 1)
  {
    InitCounted(r);
    RingRunRefines(r, es);
    ConditionsCarryOver(r, es);
    ConservationInAnyRun(Abs(r), es);
    hide RingEnd, End, CbIds, PendingIds, CompletedIds, AlwaysWithin, AlwaysFreshIds, RingRuns, Runs;
    var t := RingEnd(r, es);
    assert forall x :: x in CbIds(t.rest.accepted) ==> InOnePlace(Abs(t), x);
  }

  /** If moreover neither bounded queue overflows, the response list counting what all the
      connections of the thread put there: in exactly one of ring, map and completed. */
  lemma ThreePlacesOverRing(r: RingState, es: seq<Event>, x: nat)
    requires RingInit(r) && RingRuns(r, es) && AlwaysWithin(r, es) && AlwaysFreshIds(r, es) && AlwaysHasRoom(r, es)
    ensures var t := RingEnd(r, es);
            x in CbIds(t.rest.accepted) ==>
              CbIds(Ring.Live(t.ring))[x] + PendingIds(t.rest.pending)[x] + CompletedIds(t.rest.completed)[x] == 1
  {
    InitCounted(r);
    RingRunRefines(r, es);
    ConditionsCarryOver(r, es);
    ThreePlacesInAnyRun(Abs(r), es, x);
  }

  /** With ids submitted in ascending order, in every reachable state: handshakes, then strictly
      ascending ids in the ring; every pending id below every queued one; and this connection's
      requests taken from the ring in ascending order. */
  lemma OrderOverRing(r: RingState, es: seq<Event>)
    requires RingInit(r) && RingRuns(r, es) && AlwaysWithin(r, es) && AlwaysAscending(r, es)
    ensures OrderInv(Abs(RingEnd(r, es)))
  {
    InitCounted(r);
    RingRunRefines(r, es);
    ConditionsCarryOver(r, es);
    InitOrdered(Abs(r));
    OrderInAnyRun(Abs(r), es);
  }

  /** Ids submitted in ascending order are fresh, so conservation holds of the same runs. */
  lemma AscendingIdsAreFresh(r: RingState, es: seq<Event>)
    requires RingInit(r) && RingRuns(r, es) && AlwaysWithin(r, es) && AlwaysAscending(r, es)
    ensures AlwaysFreshIds(r, es)
  {
    InitCounted(r);
    ConditionsCarryOver(r, es);
    AscendingIsFresh(Abs(r), es);
  }

  /** The bytes on the wire are whole requests in the order they were taken from the ring, then
      the written prefix of the one being sent: in every run from a first connection, within the
      bound or not. */
  lemma WireOverRing(r: RingState, es: seq<Event>)
    requires RingInit(r) && RingRuns(r, es)
    ensures WireInv(RingEnd(r, es).rest)
  {
    InitWire(Abs(r));
    WireKept(r, es);
  }

  lemma {:induction false} WireKept(r: RingState, es: seq<Event>)
    requires RingRuns(r, es) && WireInv(r.rest)
    ensures WireInv(RingEnd(r, es).rest)
    decreases |es|
  {
    hide RingNext, WireInv, Enabled;
    if es != [] {
      StepKeepsRingWire(r, es[0]);
      WireKept(RingNext(r, es[0]), es[1..]);
    }
  }

  lemma {:induction false} RingPutAllPreSameWire(r: RingState, v: seq<Request>)
    ensures SameWire(r.rest, RingPutAllPre(r, v).rest)
    decreases |v|
  {
    if v != [] {
      RingPutAllPreSameWire(RingPutPre(r, v[0]), v[1..]);
    }
  }

  lemma TakingKeepsWire(s: State, x: Request)
    requires WireInv(s) && s.sending.None?
    ensures WireInv(Taking(s, x))
  {}

  lemma RingWriteKeepsWire(r: RingState, n: int)
    requires WireInv(r.rest)
    ensures WireInv(RingWrite(r, n).rest)
  {
    if r.rest.sending.None? && r.ring.nowNum > 0 {
      TakingKeepsWire(r.rest, r.ring.data[Ring.Rem(r.ring.readIdx, QUEUE_CAPACITY)]);
    }
    hide WireInv, Taking, WriteSome;
    WriteSomeKeepsWire(RingGetNext(r).rest, n);
  }

  lemma RingResendStartsWire(r: RingState, order: seq<nat>, now: nat, h: Option<Request>)
    requires WalksMap(order, r.rest.pending)
    ensures var t := RingResend(r.(rest := Reset(r.rest).(up := true)), order, now, h).rest;
            WireInv(t) && t.wire == [] && t.sending.None?
  {
    var r0 := r.(rest := Reset(r.rest).(up := true, pending := map[]));
    RingPutAllPreSameWire(r0, SortDescending(Stamped(r.rest.pending, order, now)));
    hide SortDescending, Stamped, RingPutAllPre, WalksMap;
  }

  lemma StepKeepsRingWire(r: RingState, e: Event)
    requires Enabled(r.rest, e) && WireInv(r.rest)
    ensures WireInv(RingNext(r, e).rest)
    ensures e.Reconnected? ==> RingNext(r, e).rest.wire == [] && RingNext(r, e).rest.sending.None?
  {
    match e
    case CanWrite(n) => RingWriteKeepsWire(r, n);
    case Reconnected(order, now, h) => RingResendStartsWire(r, order, now, h);
    case Submit(_, _) =>
    case _ => OtherStepsKeepWire(r.rest, e);
  }

  // ---------- a submission beyond the bound ----------

  /** Submitting appends, if the longer queue still fits the window; otherwise the request also
      takes the place of the one 4096 before it, and is queued twice. */
  lemma SubmitOverRing(r: RingState, x: Request, now: nat)
    requires Counted(r) && Within(r) && r.ring.nowNum < QUEUE_CAPACITY
    ensures var t, y, q := RingSend(r, x, now).0, x.(tms := now), Ring.Live(r.ring);
            && (Fits(|q| + 1, |r.rest.accepted| + 1) ==> Ring.Live(t.ring) == q + [y])
            && (!Fits(|q| + 1, |r.rest.accepted| + 1) ==>
                  |q| >= 4096 && Ring.Live(t.ring) == q[|q| - 4096 := y] + [y])
  {
    var t := RingSend(r, x, now).0;
    WithinIffSafe(r);
    OneMoreAccepted(|r.rest.accepted|);
    WithinIffSafe(t);
    if Within(t) {
      Ring.PutBackRefines(r.ring, x.(tms := now));
    } else {
      Ring.RemIsModulo(TWO64, QUEUE_CAPACITY);
      Ring.PutBackOverwrites(r.ring, x.(tms := now));
    }
  }

  // ---------- a reconnection, and what it can lose ----------

  lemma PutBackOverRing(r: RingState, v: seq<Request>)
    requires Counted(r) && Within(r) && r.ring.nowNum + |v| <= QUEUE_CAPACITY
    ensures var u := RingPutAllPre(r, v);
            && Counted(u) && u.rest == r.rest && u.ring.nowNum == |v| + r.ring.nowNum
            && (Within(u) ==> Ring.Live(u.ring) == Reversed(v) + Ring.Live(r.ring))
  {
    hide Within, RingPutAllPre, PutAllPre;
    WithinIffSafe(r);
    PutAllPreFits(Abs(r), v);
    PutAllPreTracks(r, Abs(r), v);
    PutAllPreCounts(r, v);
    WithinIffSafe(RingPutAllPre(r, v));
  }

  /** The part of a reconnection before the handshake. */
  lemma PendingOverRing(r: RingState, order: seq<nat>, now: nat) returns (asc: seq<Request>)
    requires Counted(r) && Within(r) && WalksMap(order, r.rest.pending) && KeyedMap(r.rest.pending)
    requires r.ring.nowNum + |r.rest.pending| < QUEUE_CAPACITY
    ensures AscendingIds(asc) && Holds(asc, r.rest.pending, now) && |asc| <= |r.rest.pending|
    ensures var v := SortDescending(Stamped(r.rest.pending, order, now));
            var u := RingPutAllPre(r.(rest := r.rest.(pending := map[])), v);
            && asc == Reversed(v) && Counted(u) && u.rest == r.rest.(pending := map[])
            && u.ring.nowNum == |asc + Ring.Live(r.ring)|
            && (Within(u) ==> Ring.Live(u.ring) == asc + Ring.Live(r.ring))
  {
    var d := SortDescending(Stamped(r.rest.pending, order, now));
    SortedPending(r.rest.pending, order, now);
    asc := Reversed(d);
    ReversedHolds(d, r.rest.pending, now);
    hide SortDescending, Stamped, WalksMap, DescendingIds, AscendingIds, Holds, RingPutAllPre;
    PutBackOverRing(r.(rest := r.rest.(pending := map[])), d);
  }

  /** A reconnection with room for everything.  Whether the handshake still fits the window
      decides: if so, the ring is handshake, pending requests by ascending id, old queue; if
      only the others fit, the 4096th request in that order is overwritten by a second copy of
      the handshake. */
  lemma ReconnectOverRing(r: RingState, order: seq<nat>, now: nat, handshake: Request) returns (asc: seq<Request>)
    requires Counted(r) && Within(r) && WalksMap(order, r.rest.pending) && |r.rest.pending| > 0
            && KeyedMap(r.rest.pending)
    requires r.ring.nowNum + |r.rest.pending| < QUEUE_CAPACITY
    ensures AscendingIds(asc) && Holds(asc, r.rest.pending, now)
    ensures asc == Reversed(SortDescending(Stamped(r.rest.pending, order, now)))
    ensures var t, h, body := RingResend(r, order, now, Some(handshake)), handshake.(tms := now),
            asc + Ring.Live(r.ring);
            && t.ring.nowNum == 1 + |body| && t.rest == r.rest.(pending := map[])
            && (Fits(1 + |body|, |r.rest.accepted|) ==> Ring.Live(t.ring) == [h] + body)
            && (Fits(|body|, |r.rest.accepted|) && !Fits(1 + |body|, |r.rest.accepted|) ==>
                  |body| >= 4096 && Ring.Live(t.ring) == [h] + body[4095 := h])
  {
    asc := PendingOverRing(r, order, now);
    hide SortDescending, Stamped, WalksMap, AscendingIds, Holds, RingPutAllPre, Fits;
    PushHandshake(RingPutAllPre(r.(rest := r.rest.(pending := map[])),
        SortDescending(Stamped(r.rest.pending, order, now))),
                  handshake.(tms := now));
  }

  /** Any two orders of walking the map give the same state, with or without a handshake, with or
      without room, within the bound or not. */
  lemma WalkingOrderIrrelevant(r: RingState, order: seq<nat>, order': seq<nat>, now: nat, handshake: Option<Request>)
    requires WalksMap(order, r.rest.pending) && WalksMap(order', r.rest.pending) && KeyedMap(r.rest.pending)
    ensures RingResend(r, order, now, handshake) == RingResend(r, order', now, handshake)
  {
    SortedListUnique(r.rest.pending, order, order', now);
    hide SortDescending, Stamped, WalksMap, RingPutAllPre, RingPreSend;
  }

  /** Without room for all of them the requests with the smallest ids are dropped; and as the ring
      is then full, the handshake is refused and the new connection starts without one. */
  lemma FullRingDropsOldest(r: RingState, order: seq<nat>, now: nat, handshake: Option<Request>)
    returns (dropped: seq<Request>, kept: seq<Request>)
    requires Counted(r) && WalksMap(order, r.rest.pending) && |r.rest.pending| > 0 && KeyedMap(r.rest.pending)
            && Within(r)
    ensures DescendingIds(kept + dropped) && Holds(kept + dropped, r.rest.pending, now)
    ensures |kept| == Least(|kept + dropped|, QUEUE_CAPACITY - r.ring.nowNum)
    ensures var t := RingResend(r, order, now, handshake);
            var shaken := handshake.Some? && |kept| + r.ring.nowNum < QUEUE_CAPACITY;
            && t.rest.lost == r.rest.lost + dropped
            && t.ring.nowNum == r.ring.nowNum + |kept| + (if shaken then 1 else 0)
            && (Fits(t.ring.nowNum, |r.rest.accepted|) ==>
                  Ring.Live(t.ring) == (if shaken then [handshake.value.(tms := now)] else [])
                      + (Reversed(kept) + Ring.Live(r.ring)))
    ensures dropped != [] ==> |kept| + r.ring.nowNum == QUEUE_CAPACITY
  {
    dropped, kept := FullQueueDropsOldest(Abs(r), order, now, handshake);
    WithinIffSafe(r);
    ResendCounts(r, order, now, handshake);
    WithinIffSafe(RingResend(r, order, now, handshake));
    hide Resend, RingResend, WalksMap, Holds, DescendingIds, Counted, Fits;
    ResendTracks(r, Abs(r), order, now, handshake);
  }

  lemma PushHandshake(r: RingState, h: Request)
    requires Counted(r) && r.ring.nowNum < QUEUE_CAPACITY
    ensures var t := r.(ring := Ring.PutFront(r.ring, h));
            && Counted(t) && t.ring.nowNum == r.ring.nowNum + 1
            && (Within(r) <==> Ring.SafeWindow(r.ring)) && (Within(t) ==> Within(r))
            && (Within(t) ==> Ring.Live(t.ring) == [h] + Ring.Live(r.ring))
            && (Within(r) && !Within(t) ==>
                  r.ring.nowNum >= 4096 && Ring.Live(t.ring) == [h] + Ring.Live(r.ring)[4095 := h])
  {
    var t := r.(ring := Ring.PutFront(r.ring, h));
    WithinIffSafe(r);
    WithinIffSafe(t);
    ShrinkingKeepsSafe(r.ring, h);
    if Within(t) {
      Ring.PutFrontRefines(r.ring, h);
    } else if Within(r) {
      Ring.RemIsModulo(TWO64, QUEUE_CAPACITY);
      Ring.PutFrontOverwrites(r.ring, h);
    }
  }

  lemma ResendCounts(r: RingState, order: seq<nat>, now: nat, handshake: Option<Request>)
    requires Counted(r) && WalksMap(order, r.rest.pending)
    ensures var t := RingResend(r, order, now, handshake);
            Counted(t) && t.rest.accepted == r.rest.accepted
  {
    var r0 := r.(rest := r.rest.(pending := map[]));
    PutAllPreCounts(r0, SortDescending(Stamped(r.rest.pending, order, now)));
    hide SortDescending, Stamped, WalksMap, RingPutAllPre;
  }

  /** A handshake in front of ascending requests: no request occurs twice. */
  lemma NothingRepeats(s: State, asc: seq<Request>, now: nat, h: Request)
    requires OrderInv(s) && AscendingIds(asc) && Holds(asc, s.pending, now) && asc != [] && h.handshake
    ensures var q := [h] + (asc + s.queue); forall i, j :: 0 <= i < j < |q| ==> q[i] != q[j]
  {
    var body := asc + s.queue;
    forall i | 0 <= i < |asc| ensures AwaitsResponse(s.pending, asc[i].id) && !asc[i].handshake {
      assert asc[i] in asc;
    }
    assert AwaitsResponse(s.pending, asc[0].id);
    hide Holds, Bounded, TakenOrdered;
    assert forall i :: 0 <= i < |body| ==> !body[i].handshake;
    assert forall i, j :: 0 <= i < j < |body| ==> body[i].id < body[j].id;
  }

  /** Exactly when a reconnection that has something to resend, and room, does what it is for:
      if and only if queue, pending requests and handshake together fit the bound. */
  lemma ReconnectIff(r: RingState, order: seq<nat>, now: nat, handshake: Request) returns (asc: seq<Request>)
    requires Counted(r) && Within(r) && OrderInv(Abs(r)) && WalksMap(order, r.rest.pending)
    requires (exists k: nat :: AwaitsResponse(r.rest.pending, k)) && IsHandshake(handshake)
    requires r.ring.nowNum + |r.rest.pending| < QUEUE_CAPACITY
    ensures AscendingIds(asc) && Holds(asc, r.rest.pending, now)
    ensures var t, body := RingResend(r, order, now, Some(handshake)), asc + Ring.Live(r.ring);
            Ring.Live(t.ring) == [handshake.(tms := now)] + body <==> Fits(1 + |body|, |r.rest.accepted|)
  {
    var k: nat :| AwaitsResponse(r.rest.pending, k);
    assert |r.rest.pending| > 0;
    asc := ReconnectOverRing(r, order, now, handshake);
    assert Entry(r.rest.pending, k, now) in asc;
    NothingRepeats(Abs(r), asc, now, handshake.(tms := now));
    ResendCounts(r, order, now, Some(handshake));
    var t := RingResend(r, order, now, Some(handshake));
    hide OrderInv, Holds, AscendingIds, WalksMap, Stamped, SortDescending, RingResend, Fits;
    WithinIffSafe(t);
    if !Within(t) {
      var i, j := Ring.UnsafeRepeats(t.ring);
    }
  }

  lemma CbIdsReplace(q: seq<Request>, i: nat, y: Request)
    requires i < |q| && !y.needCb
    ensures CbIds(q) == CbIds(q[i := y]) + CbIds([q[i]])
  {
    assert q == q[..i] + ([q[i]] + q[i + 1..]);
    assert q[i := y] == q[..i] + ([y] + q[i + 1..]);
    CbIdsAppend(q[..i], [q[i]] + q[i + 1..]);
    CbIdsAppend([q[i]], q[i + 1..]);
    CbIdsAppend(q[..i], [y] + q[i + 1..]);
    CbIdsAppend([y], q[i + 1..]);
    CbIdsOne(y);
  }

  lemma {:induction false} AllWanted(v: seq<Request>)
    requires forall x :: x in v ==> x.needCb
    ensures |CbIds(v)| == |v|
    decreases |v|
  {
    if v != [] {
      assert v[0] in v && forall x :: x in v[1..] ==> x in v;
      AllWanted(v[1..]);
    }
  }

  /** The list put back has the ids of the map, each once. */
  lemma PutBackIds(r: RingState, order: seq<nat>, now: nat)
    requires WalksMap(order, r.rest.pending) && Keyed(r.rest)
    ensures var v := SortDescending(Stamped(r.rest.pending, order, now));
            |v| == |PendingIds(r.rest.pending)|
  {
    var v := Stamped(r.rest.pending, order, now);
    assert KeyedMap(r.rest.pending);
    StampedIds(r.rest.pending, order, now);
    SortIds(v);
    SortedPending(r.rest.pending, order, now);
    hide Stamped, SortDescending, WalksMap, CbIds, PendingIds;
    AllWanted(SortDescending(v));
  }

  lemma PutBackConserves(s: State, order: seq<nat>, now: nat)
    requires Inv(s) && WalksMap(order, s.pending) && |s.queue| + |s.pending| < QUEUE_CAPACITY && |s.pending| > 0
    ensures Inv(s.(pending := map[], queue := Reversed(SortDescending(Stamped(s.pending, order, now))) + s.queue))
  {
    var v := Stamped(s.pending, order, now);
    ResendKeeps(s, order, now, None);
    WalkLength(order, s.pending);
    StampedLength(s.pending, order, now);
    SortLength(v);
    hide Stamped, SortDescending, WalksMap, Inv, PutAllPre;
    PutAllPreFits(s.(pending := map[]), SortDescending(v));
  }

  /** Overwriting one queued request by a handshake makes its id vanish. */
  lemma OverwritingLoses(s: State, i: nat, h: Request)
    requires Inv(s) && i < |s.queue| && s.queue[i].needCb && !h.needCb
    ensures var x := s.queue[i].id;
            && x in CbIds(s.accepted) && x !in CbIds([h] + s.queue[i := h]) && x !in PendingIds(s.pending)
            && x !in CompletedIds(s.completed) && x !in CbIds(s.lost)
  {
    var q, r := s.queue[i := h], s.queue[i];
    CbIdsReplace(s.queue, i, h);
    CbIdsAppend([h], q);
    CbIdsOne(h);
    CbIdsOne(r);
    hide CbIds, PendingIds, CompletedIds;
    assert r.id in CbIds(s.accepted);
    CountedOnce(r.id, CbIds(s.accepted), CbIds(q), PendingIds(s.pending), CompletedIds(s.completed) + CbIds(s.lost));
  }

  /** The overwritten request is lost without a trace, if it wants a callback: it was accepted,
      and is neither in the ring nor in the map, nor completed, nor recorded as dropped. */
  lemma OverwrittenIsNowhere(r: RingState, order: seq<nat>, now: nat, handshake: Request) returns (lost: Request)
    requires Counted(r) && Within(r) && WalksMap(order, r.rest.pending) && |r.rest.pending| > 0
    requires Inv(Abs(r)) && IsHandshake(handshake)
    requires r.ring.nowNum + |r.rest.pending| < QUEUE_CAPACITY
    requires var m := r.ring.nowNum + |PendingIds(r.rest.pending)|;
             Fits(m, |r.rest.accepted|) && !Fits(m + 1, |r.rest.accepted|)
    ensures var t := RingResend(r, order, now, Some(handshake));
            lost.needCb ==>
              && lost.id in CbIds(t.rest.accepted) && lost.id !in CbIds(Ring.Live(t.ring))
              && lost.id !in PendingIds(t.rest.pending)
              && lost.id !in CompletedIds(t.rest.completed) && lost.id !in CbIds(t.rest.lost)
    ensures lost.needCb || lost in Ring.Live(r.ring)
  {
    var asc := ReconnectOverRing(r, order, now, handshake);
    PutBackIds(r, order, now);
    PutBackConserves(Abs(r), order, now);
    hide Stamped, SortDescending, WalksMap, Inv, PutAllPre, RingResend, CbIds, PendingIds, CompletedIds, Counted, Fits;
    var body := asc + Ring.Live(r.ring);
    lost := body[4095];
    PendingWanted(r, asc, now);
    assert if 4095 < |asc| then lost in asc else lost in Ring.Live(r.ring);
    if lost.needCb {
      OverwritingLoses(Abs(r).(pending := map[], queue := body), 4095, handshake.(tms := now));
    }
  }

  lemma PendingWanted(r: RingState, asc: seq<Request>, now: nat)
    requires Inv(Abs(r)) && Holds(asc, r.rest.pending, now)
    ensures forall x :: x in asc ==> x.needCb
  {}

  // ---------- a run that loses a request ----------

  /** Up, with an empty queue and nothing half sent. */
  ghost predicate Idle(r: RingState) {
    Counted(r) && r.ring.nowNum == 0 && r.rest.up && r.rest.sending.None? && Inv(Abs(r))
  }

  /** A request that can be sent in one write and wants a response. */
  predicate Plain(x: Request) {
    x.needCb && !x.handshake && x.data != []
  }

  ghost predicate Sent(r: RingState, t: RingState, x: Request) {
    && t.rest.accepted == r.rest.accepted + [x] && t.rest.pending == r.rest.pending[x.id := Some(x)]
    && t.rest.responses == r.rest.responses
  }

  lemma SubmitAndWrite(s: State, x: Request)
    requires s.queue == [] && s.up && s.sending.None? && Plain(x)
    ensures var y, u := x.(tms := 0), Next(s, Submit(x, 0));
            && u.queue == [y] && u.up && u.sending.None?
            && var t := Next(u, CanWrite(|x.data|));
            && t.queue == [] && t.up && t.sending.None? && t.responses == s.responses
            && t.accepted == s.accepted + [y] && t.pending == s.pending[x.id := Some(y)]
  {
    var y := x.(tms := 0);
    var u := Next(s, Submit(x, 0));
    assert u == s.(queue := [y], accepted := s.accepted + [y]);
    var v := GetNext(u);
    assert v == Taking(u.(queue := []), y);
    assert Next(u, CanWrite(|x.data|)) == WriteSome(v, |x.data|);
  }

  /** Submitting one request and writing it. */
  lemma SendOne(r: RingState, x: Request)
    requires Idle(r) && Plain(x) && x.id !in CbIds(r.rest.accepted)
    ensures Enabled(r.rest, Submit(x, 0))
    ensures var u := RingNext(r, Submit(x, 0));
            && Within(u) && Enabled(u.rest, CanWrite(|x.data|))
            && var t := RingNext(u, CanWrite(|x.data|));
            Idle(t) && Sent(r, t, x.(tms := 0))
  {
    var s := Abs(r);
    var e, f := Submit(x, 0), CanWrite(|x.data|);
    assert s.queue == [] && s.up && Enabled(s, e) && Fresh(s, e);
    SubmitAndWrite(s, x);
    hide RingNext, Next, Inv, Plain, CbIds, Fits;
    StepTracks0(r, e);
    var u := RingNext(r, e);
    StepKeeps(s, e);
    StepTracks0(u, f);
    StepKeeps(Abs(u), f);
  }

  /** A step that leaves at most one request queued. */
  lemma StepTracks0(r: RingState, e: Event)
    requires Counted(r) && Enabled(r.rest, e) && r.ring.nowNum <= 1
    requires Enabled(Abs(r), e) ==> |Next(Abs(r), e).queue| <= 1
    ensures Enabled(Abs(r), e) && Counted(RingNext(r, e)) && Within(RingNext(r, e))
    ensures Abs(RingNext(r, e)) == Next(Abs(r), e)
  {
    hide RingNext, Next, Enabled;
    WithinIffSafe(r);
    StepTracks(r, e);
    StepCounts(r, e);
    WithinIffSafe(RingNext(r, e));
  }

  function Ids(rs: seq<Request>): (v: seq<nat>)
    ensures |v| == |rs| && forall i :: 0 <= i < |rs| ==> v[i] == rs[i].id
  {
    seq(|rs|, i requires 0 <= i < |rs| => rs[i].id)
  }

  ghost predicate KeysAre(m: map<nat, Option<Request>>, v: seq<nat>) {
    forall k :: k in m <==> k in v
  }

  /** The first i requests have been sent, and none was answered. */
  ghost predicate Unanswered(r: RingState, rs: seq<Request>, i: nat)
    requires i <= |rs|
  {
    && Idle(r) && |r.rest.accepted| == i
    && (forall j :: 0 <= j < i ==> r.rest.accepted[j].id == rs[j].id)
    && KeysAre(r.rest.pending, Ids(rs)[..i])
    && |r.rest.pending| == i && |PendingIds(r.rest.pending)| == i
  }

  lemma OneMoreUnanswered(r: RingState, t: RingState, rs: seq<Request>, i: nat)
    requires i < |rs| && NoRepeats(rs) && Unanswered(r, rs, i)
    requires Idle(t) && Sent(r, t, rs[i].(tms := 0))
    ensures Unanswered(t, rs, i + 1)
  {
    hide Idle, PendingIds, CbIds, NoRepeats, KeysAre;
    var k, m, y := rs[i].id, r.rest.pending, rs[i].(tms := 0);
    OneMoreKey(m, rs, i, Some(y));
    PendingIdsAdd(m, k, Some(y));
    assert PendingIds(t.rest.pending) == PendingIds(m) + multiset{k};
    OneMoreAcceptedId(r.rest.accepted, rs, i, y);
  }

  lemma OneMoreAcceptedId(accepted: seq<Request>, rs: seq<Request>, i: nat, y: Request)
    requires i < |rs| && |accepted| == i && y.id == rs[i].id && forall j :: 0 <= j < i ==> accepted[j].id == rs[j].id
    ensures forall j :: 0 <= j < i + 1 ==> (accepted + [y])[j].id == rs[j].id
  {}

  lemma OneMoreKey(m: map<nat, Option<Request>>, rs: seq<Request>, i: nat, y: Option<Request>)
    requires i < |rs| && NoRepeats(rs) && KeysAre(m, Ids(rs)[..i])
    ensures rs[i].id !in m && |m[rs[i].id := y]| == |m| + 1
    ensures KeysAre(m[rs[i].id := y], Ids(rs)[..i + 1])
  {
    var k := rs[i].id;
    assert Ids(rs)[..i + 1] == Ids(rs)[..i] + [k];
    forall j | 0 <= j < i ensures Ids(rs)[..i][j] != k {}
    assert m[k := y].Keys == m.Keys + {k};
  }

  lemma NotYetAccepted(r: RingState, rs: seq<Request>, i: nat)
    requires i < |rs| && NoRepeats(rs) && Unanswered(r, rs, i)
    ensures rs[i].id !in CbIds(r.rest.accepted)
  {
    if rs[i].id in CbIds(r.rest.accepted) { CbIdsMember(r.rest.accepted, rs[i].id); }
  }

  /** Send the rest of the requests one by one, lose the connection, reconnect. */
  function Script(rs: seq<Request>, i: nat, now: nat, h: Request): seq<Event>
    requires i <= |rs|
    decreases |rs| - i
  {
    if i == |rs| then [Disconnected, Reconnected(Ids(rs), now, Some(h))]
    else [Submit(rs[i], 0), CanWrite(|rs[i].data|)] + Script(rs, i + 1, now, h)
  }

  /** A run with fresh ids in which no queue overflows. */
  ghost predicate Regular(r: RingState, es: seq<Event>) {
    RingRuns(r, es) && AlwaysFreshIds(r, es) && AlwaysHasRoom(r, es)
  }

  lemma RegularCons(r: RingState, e: Event, es: seq<Event>)
    requires Enabled(r.rest, e) && Fresh(Abs(r), e) && HasRoom(Abs(r), e) && Regular(RingNext(r, e), es)
    ensures Regular(r, [e] + es) && RingEnd(r, [e] + es) == RingEnd(RingNext(r, e), es)
  {
    assert ([e] + es)[1..] == es;
  }

  ghost predicate Nowhere(t: RingState, x: nat) {
    && x in CbIds(t.rest.accepted) && x !in CbIds(Ring.Live(t.ring)) && x !in PendingIds(t.rest.pending)
    && x !in CompletedIds(t.rest.completed) && x !in CbIds(t.rest.lost)
  }

  lemma InvOfReset(s: State)
    ensures Inv(s) ==> Inv(s.(sending := None, sendPos := 0, taken := [], finished := [], wire := []))
  {}

  /** The connection goes down and comes up again, with everything still unanswered. */
  lemma DownAndUp(r: RingState, rs: seq<Request>) returns (r0: RingState)
    requires |rs| == 4096 && NoRepeats(rs) && Unanswered(r, rs, 4096)
    ensures Enabled(r.rest, Disconnected)
    ensures var u := RingNext(r, Disconnected);
            && r0 == u.(rest := Reset(u.rest).(up := true)) && !u.rest.up
            && u.rest.pending == r0.rest.pending && |Abs(u).queue| == 0
    ensures Counted(r0) && Within(r0) && Inv(Abs(r0)) && r0.ring.nowNum == 0 && |r0.rest.pending| == 4096
    ensures var m := r0.ring.nowNum + |PendingIds(r0.rest.pending)|;
            Fits(m, |r0.rest.accepted|) && !Fits(m + 1, |r0.rest.accepted|)
    ensures WalksMap(Ids(rs), r0.rest.pending)
  {
    var u := RingNext(r, Disconnected);
    r0 := u.(rest := Reset(u.rest).(up := true));
    assert Ids(rs)[..4096] == Ids(rs);
    InvOfReset(Abs(r));
    hide CbIds, PendingIds, CompletedIds, Inv, Ring.Live, Ring.Consistent;
    assert Abs(r0) == Abs(r).(sending := None, sendPos := 0, taken := [], finished := [], wire := []);
  }

  lemma LostOnReconnecting(u: RingState, order: seq<nat>, now: nat, h: Request) returns (x: nat)
    requires !u.rest.up && WalksMap(order, u.rest.pending) && |u.rest.pending| == 4096 && u.ring.nowNum == 0
    requires var r := u.(rest := Reset(u.rest).(up := true));
             && Counted(r) && Within(r) && Inv(Abs(r))
             && Fits(|PendingIds(u.rest.pending)|, |u.rest.accepted|)
             && !Fits(|PendingIds(u.rest.pending)| + 1, |u.rest.accepted|)
    requires IsHandshake(h)
    ensures Enabled(u.rest, Reconnected(order, now, Some(h)))
            && Nowhere(RingNext(u, Reconnected(order, now, Some(h))), x)
  {
    hide Inv, CbIds, PendingIds, CompletedIds, WalksMap, RingResend, Counted, Within, Fits;
    var r := u.(rest := Reset(u.rest).(up := true));
    var lost := OverwrittenIsNowhere(r, order, now, h);
    assert Ring.Live(r.ring) == [];
    x := lost.id;
  }

  lemma LoseAndReconnect(r: RingState, rs: seq<Request>, now: nat, h: Request) returns (x: nat)
    requires |rs| == 4096 && NoRepeats(rs) && Unanswered(r, rs, 4096) && IsHandshake(h)
    ensures var es := Script(rs, 4096, now, h); Regular(r, es) && Nowhere(RingEnd(r, es), x)
  {
    var e, f := Disconnected, Reconnected(Ids(rs), now, Some(h));
    var r0 := DownAndUp(r, rs);
    hide Inv, PendingIds, WalksMap, Counted, Within, Fits, Nowhere, RingResend, Regular, Unanswered, NoRepeats;
    x := LostOnReconnecting(RingNext(r, e), Ids(rs), now, h);
    TwoSteps(r, e, f);
  }

  lemma TwoSteps(r: RingState, e: Event, f: Event)
    requires Enabled(r.rest, e) && Fresh(Abs(r), e) && HasRoom(Abs(r), e)
    requires var u := RingNext(r, e); Enabled(u.rest, f) && Fresh(Abs(u), f) && HasRoom(Abs(u), f)
    ensures Regular(r, [e, f]) && RingEnd(r, [e, f]) == RingNext(RingNext(r, e), f)
  {
    hide RingNext, Enabled, Fresh, HasRoom;
    var u := RingNext(r, e);
    var t := RingNext(u, f);
    assert Regular(t, []) && RingEnd(t, []) == t;
    hide Regular;
    RegularCons(u, f, []);
    RegularCons(r, e, [f] + []);
    assert [e] + ([f] + []) == [e, f];
  }

  lemma {:induction false} ScriptLoses(r: RingState, rs: seq<Request>, i: nat, now: nat, h: Request) returns (x: nat)
    requires |rs| == 4096 && i <= 4096 && NoRepeats(rs) && Unanswered(r, rs, i) && IsHandshake(h)
    requires forall j :: 0 <= j < |rs| ==> Plain(rs[j])
    ensures var es := Script(rs, i, now, h); Regular(r, es) && Nowhere(RingEnd(r, es), x)
    decreases |rs| - i
  {
    if i == 4096 {
      x := LoseAndReconnect(r, rs, now, h);
    } else {
      NotYetAccepted(r, rs, i);
      SendOne(r, rs[i]);
      var e, f := Submit(rs[i], 0), CanWrite(|rs[i].data|);
      var u := RingNext(r, e);
      var t := RingNext(u, f);
      OneMoreUnanswered(r, t, rs, i);
      x := ScriptLoses(t, rs, i + 1, now, h);
      ScriptStep(r, rs, i, now, h);
    }
  }

  lemma ScriptStep(r: RingState, rs: seq<Request>, i: nat, now: nat, h: Request)
    requires i < |rs| && Idle(r) && Plain(rs[i]) && rs[i].id !in CbIds(r.rest.accepted)
    requires Enabled(r.rest, Submit(rs[i], 0))
    requires var u := RingNext(r, Submit(rs[i], 0));
             && Enabled(u.rest, CanWrite(|rs[i].data|))
             && Regular(RingNext(u, CanWrite(|rs[i].data|)), Script(rs, i + 1, now, h))
    ensures var u := RingNext(r, Submit(rs[i], 0));
            && Regular(r, Script(rs, i, now, h))
            && RingEnd(r, Script(rs, i, now, h)) ==
               RingEnd(RingNext(u, CanWrite(|rs[i].data|)), Script(rs, i + 1, now, h))
  {
    hide RingNext, Regular, Plain, CbIds;
    var e, f, tail := Submit(rs[i], 0), CanWrite(|rs[i].data|), Script(rs, i + 1, now, h);
    RegularCons(RingNext(r, e), f, tail);
    RegularCons(r, e, [f] + tail);
    assert [e] + ([f] + tail) == Script(rs, i, now, h);
  }

  /** The bound is needed: 4096 requests sent on a first connection, one after the other, and
      none answered when the peer disconnects.  Ids are fresh and no queue ever holds more than
      4097, yet after the reconnection one of the requests is gone. */
  lemma ReconnectionLosesRequest(r: RingState, rs: seq<Request>, now: nat, h: Request) returns (es: seq<Event>, x: nat)
    requires RingInit(r) && Ring.Live(r.ring)[0].data != [] && IsHandshake(h)
    requires |rs| == 4096 && NoRepeats(rs) && forall j :: 0 <= j < |rs| ==> Plain(rs[j])
    ensures Regular(r, es) && Nowhere(RingEnd(r, es), x)
  {
    var handshake := Ring.Live(r.ring)[0];
    var e := CanWrite(|handshake.data|);
    InitCounted(r);
    OneStepRefines(r, e);
    InitHolds(Abs(r));
    StepKeeps(Abs(r), e);
    var t := RingNext(r, e);
    EmptyMap();
    assert Unanswered(t, rs, 0);
    x := ScriptLoses(t, rs, 0, now, h);
    RegularCons(r, e, Script(rs, 0, now, h));
    es := [e] + Script(rs, 0, now, h);
  }
}
