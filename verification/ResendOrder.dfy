/** The order of requests: what a reconnection puts back, and in which order requests
    leave on every connection. */
module ResendOrder {
  import opened Basics
  import opened Connection
  import opened Conservation

  // ---------- what a reconnection puts back ----------

  ghost predicate AscendingIds(v: seq<Request>) {
    forall i, j :: 0 <= i < j < |v| ==> v[i].id < v[j].id
  }

  ghost predicate DescendingIds(v: seq<Request>) {
    forall i, j :: 0 <= i < j < |v| ==> v[i].id > v[j].id
  }

  predicate AwaitsResponse(m: map<nat, Option<Request>>, k: nat) {
    k in m && m[k].Some?
  }

  /** The request awaiting a response under k, stamped with the time. */
  function Entry(m: map<nat, Option<Request>>, k: nat, now: nat): Request
    requires AwaitsResponse(m, k)
  {
    m[k].value.(tms := now)
  }

  /** v holds exactly the non-null requests of the map, each stamped with the time. */
  ghost predicate Holds(v: seq<Request>, m: map<nat, Option<Request>>, now: nat) {
    && (forall r :: r in v ==> AwaitsResponse(m, r.id) && r == Entry(m, r.id, now))
    && (forall k :: AwaitsResponse(m, k) ==> Entry(m, k, now) in v)
  }

  ghost predicate NoRepeats(v: seq<Request>) {
    forall i, j :: 0 <= i < j < |v| ==> v[i].id != v[j].id
  }

  ghost predicate KeyedMap(m: map<nat, Option<Request>>) {
    forall k :: AwaitsResponse(m, k) ==> m[k].value.id == k
  }

  lemma ConsHolds(m: map<nat, Option<Request>>, k: nat, tail: seq<Request>, now: nat)
    requires KeyedMap(m) && AwaitsResponse(m, k)
    requires Holds(tail, m - {k}, now) && NoRepeats(tail)
    ensures Holds([Entry(m, k, now)] + tail, m, now) && NoRepeats([Entry(m, k, now)] + tail)
  {
    var v := [Entry(m, k, now)] + tail;
    forall j | AwaitsResponse(m, j) ensures Entry(m, j, now) in v {
      if j == k {
        assert v[0] == Entry(m, k, now);
      } else {
        assert AwaitsResponse(m - {k}, j) && Entry(m - {k}, j, now) in tail;
      }
    }
    forall r | r in v ensures AwaitsResponse(m, r.id) && r == Entry(m, r.id, now) {
      if r in tail {
        assert AwaitsResponse(m - {k}, r.id);
      }
    }
    forall i | 0 <= i < |tail| ensures tail[i].id != k {
      assert tail[i] in tail;
    }
  }

  lemma NullHolds(m: map<nat, Option<Request>>, k: nat, tail: seq<Request>, now: nat)
    requires k in m && m[k].None?
    requires Holds(tail, m - {k}, now)
    ensures Holds(tail, m, now)
  {
    forall j | AwaitsResponse(m, j) ensures Entry(m, j, now) in tail {
      assert AwaitsResponse(m - {k}, j) && Entry(m - {k}, j, now) in tail;
    }
    forall r | r in tail ensures AwaitsResponse(m, r.id) && r == Entry(m, r.id, now) {
      assert AwaitsResponse(m - {k}, r.id);
    }
  }

  lemma {:induction false} StampedHolds(m: map<nat, Option<Request>>, order: seq<nat>, now: nat)
    requires WalksMap(order, m) && KeyedMap(m)
    ensures Holds(Stamped(m, order, now), m, now) && NoRepeats(Stamped(m, order, now))
    decreases |order|
  {
    if order != [] {
      var k, rest := order[0], order[1..];
      WalkRest(order, m);
      StampedHolds(m - {k}, rest, now);
      StampedSame(m, m - {k}, rest, now);
      var tail := Stamped(m, rest, now);
      if m[k].Some? {
        assert Stamped(m, order, now) == [Entry(m, k, now)] + tail;
        ConsHolds(m, k, tail, now);
      } else {
        assert Stamped(m, order, now) == tail;
        NullHolds(m, k, tail, now);
      }
    }
  }

  lemma {:induction false} InsertSorts(r: Request, v: seq<Request>)
    requires DescendingIds(v) && forall x :: x in v ==> x.id != r.id
    ensures DescendingIds(InsertDescending(r, v))
    ensures forall x :: x in InsertDescending(r, v) <==> x == r || x in v
    decreases |v|
  {
    if v == [] || r.id > v[0].id {
      assert forall x :: x in [r] + v <==> x == r || x in v;
    } else {
      assert v == [v[0]] + v[1..];
      assert v[0] in v;
      InsertSorts(r, v[1..]);
      var w := InsertDescending(r, v[1..]);
      forall i | 0 <= i < |w| ensures w[i].id < v[0].id {
        assert w[i] in w;
        if w[i] != r {
          var j :| 0 <= j < |v[1..]| && v[1..][j] == w[i];
          assert v[j + 1] == w[i];
        }
      }
      assert InsertDescending(r, v) == [v[0]] + w;
    }
  }

  lemma {:induction false} SortSorts(v: seq<Request>)
    requires NoRepeats(v)
    ensures DescendingIds(SortDescending(v))
    ensures forall x :: x in SortDescending(v) <==> x in v
    decreases |v|
  {
    if v != [] {
      SortSorts(v[1..]);
      assert v == [v[0]] + v[1..];
      forall x | x in v[1..] ensures x.id != v[0].id {
        var i :| 0 <= i < |v[1..]| && v[1..][i] == x;
        assert v[i + 1] == x;
      }
      InsertSorts(v[0], SortDescending(v[1..]));
    }
  }

  function Reversed(v: seq<Request>): (r: seq<Request>)
    ensures |r| == |v| && forall i :: 0 <= i < |v| ==> r[i] == v[|v| - 1 - i]
  {
    seq(|v|, i requires 0 <= i < |v| => v[|v| - 1 - i])
  }

  lemma ReversedCons(r: Request, v: seq<Request>, q: seq<Request>)
    ensures Reversed([r] + v) + q == Reversed(v) + ([r] + q)
  {}

  lemma {:induction false} PutAllPreFits(s: State, v: seq<Request>)
    requires |s.queue| + |v| <= QUEUE_CAPACITY
    ensures PutAllPre(s, v) == s.(queue := Reversed(v) + s.queue)
    decreases |v|
  {
    if v == [] {
      assert Reversed(v) + s.queue == s.queue;
    } else {
      PutAllPreFits(PutPre(s, v[0]), v[1..]);
      assert v == [v[0]] + v[1..];
      ReversedCons(v[0], v[1..], s.queue);
    }
  }

  lemma {:induction false} PutAllPreFull(s: State, v: seq<Request>)
    requires |s.queue| == QUEUE_CAPACITY
    ensures PutAllPre(s, v) == s.(lost := s.lost + v)
    decreases |v|
  {
    if v == [] {
      assert s.lost + v == s.lost;
    } else {
      PutAllPreFull(PutPre(s, v[0]), v[1..]);
      assert s.lost + [v[0]] + v[1..] == s.lost + v;
    }
  }

  lemma {:induction false} PutAllPreSplit(s: State, v: seq<Request>, w: seq<Request>)
    ensures PutAllPre(s, v + w) == PutAllPre(PutAllPre(s, v), w)
    decreases |v|
  {
    if v == [] {
      assert v + w == w;
    } else {
      assert (v + w)[1..] == v[1..] + w;
      PutAllPreSplit(PutPre(s, v[0]), v[1..], w);
    }
  }

  /** Pushing a list to the front one by one reverses it; what finds no room is lost. */
  lemma PutAllPreForm(s: State, v: seq<Request>, fit: nat)
    requires |s.queue| <= QUEUE_CAPACITY && fit == Least(|v|, QUEUE_CAPACITY - |s.queue|)
    ensures PutAllPre(s, v) == s.(queue := Reversed(v[..fit]) + s.queue, lost := s.lost + v[fit..])
  {
    assert v == v[..fit] + v[fit..];
    PutAllPreSplit(s, v[..fit], v[fit..]);
    PutAllPreFits(s, v[..fit]);
    var s1 := PutAllPre(s, v[..fit]);
    if fit < |v| {
      PutAllPreFull(s1, v[fit..]);
    } else {
      assert v[fit..] == [] && s1.lost + v[fit..] == s1.lost;
    }
  }

  lemma HeadOnce(a: seq<Request>)
    requires AscendingIds(a) && a != []
    ensures forall x :: x in a[1..] <==> x in a && x != a[0]
  {
    assert a == [a[0]] + a[1..];
    forall x | x in a[1..] ensures x != a[0] {
      var i :| 0 <= i < |a[1..]| && a[1..][i] == x;
      assert a[i + 1] == x;
    }
  }

  /** Only one list holds the map's requests in ascending order. */
  lemma {:induction false} AscendingUnique(a: seq<Request>, b: seq<Request>)
    requires AscendingIds(a) && AscendingIds(b)
    requires forall x :: x in a <==> x in b
    ensures a == b
    decreases |a|
  {
    assert b != [] ==> b[0] in b;
    if a != [] {
      assert a[0] in b && b != [] && b[0] in a;
      var i :| 0 <= i < |b| && b[i] == a[0];
      var j :| 0 <= j < |a| && a[j] == b[0];
      assert i == 0 && j == 0;
      HeadOnce(a);
      HeadOnce(b);
      forall x ensures x in a[1..] <==> x in b[1..] {}
      AscendingUnique(a[1..], b[1..]);
    }
  }

  /** The list the source sorts and pushes back. */
  lemma SortedPending(m: map<nat, Option<Request>>, order: seq<nat>, now: nat)
    requires WalksMap(order, m) && KeyedMap(m)
    ensures var d := SortDescending(Stamped(m, order, now));
            DescendingIds(d) && Holds(d, m, now) && |d| <= |m|
  {
    var v := Stamped(m, order, now);
    StampedHolds(m, order, now);
    SortSorts(v);
    WalkLength(order, m);
    StampedLength(m, order, now);
    SortLength(v);
  }

  lemma ReversedMembers(d: seq<Request>, x: Request)
    ensures x in d <==> x in Reversed(d)
  {
    if x in d {
      var i :| 0 <= i < |d| && d[i] == x;
      assert Reversed(d)[|d| - 1 - i] == x;
    }
  }

  lemma ReversedHolds(d: seq<Request>, m: map<nat, Option<Request>>, now: nat)
    requires DescendingIds(d) && Holds(d, m, now)
    ensures AscendingIds(Reversed(d)) && Holds(Reversed(d), m, now)
  {
    forall x ensures x in d <==> x in Reversed(d) {
      ReversedMembers(d, x);
    }
  }

  lemma ReversedReversed(d: seq<Request>)
    ensures Reversed(Reversed(d)) == d
  {}

  /** The unspecified iteration order of the hash map does not matter. */
  lemma SortedListUnique(m: map<nat, Option<Request>>, order: seq<nat>, order': seq<nat>, now: nat)
    requires WalksMap(order, m) && WalksMap(order', m) && KeyedMap(m)
    ensures SortDescending(Stamped(m, order, now)) == SortDescending(Stamped(m, order', now))
  {
    var d, d' := SortDescending(Stamped(m, order, now)), SortDescending(Stamped(m, order', now));
    SortedPending(m, order, now);
    SortedPending(m, order', now);
    hide Stamped, SortDescending, WalksMap;
    var a, b := Reversed(d), Reversed(d');
    ReversedHolds(d, m, now);
    ReversedHolds(d', m, now);
    forall x ensures x in a <==> x in b {
      if x in a { assert Entry(m, x.id, now) in b; }
      if x in b { assert Entry(m, x.id, now) in a; }
    }
    AscendingUnique(a, b);
    ReversedReversed(d);
    ReversedReversed(d');
  }

  /** Without room for all of them the requests with the smallest ids are dropped; and as the
      queue is then full, a handshake is refused and the new connection starts without one. */
  lemma FullQueueDropsOldest(s: State, order: seq<nat>, now: nat, handshake: Option<Request>)
    returns (dropped: seq<Request>, kept: seq<Request>)
    requires WalksMap(order, s.pending) && |s.pending| > 0 && |s.queue| <= QUEUE_CAPACITY
    requires KeyedMap(s.pending)
    ensures DescendingIds(kept + dropped) && Holds(kept + dropped, s.pending, now)
    ensures |kept| == Least(|kept + dropped|, QUEUE_CAPACITY - |s.queue|)
    ensures Resend(s, order, now, handshake).lost == s.lost + dropped
    ensures Resend(s, order, now, handshake).queue ==
            (if handshake.Some? && |kept| + |s.queue| < QUEUE_CAPACITY then [handshake.value.(tms := now)] else [])
            + (Reversed(kept) + s.queue)
    ensures dropped != [] ==> |kept| + |s.queue| == QUEUE_CAPACITY
  {
    hide Holds, DescendingIds, SortDescending, Stamped, PutAllPre;
    var d := SortDescending(Stamped(s.pending, order, now));
    SortedPending(s.pending, order, now);
    var fit := Least(|d|, QUEUE_CAPACITY - |s.queue|);
    PutAllPreForm(s.(pending := map[]), d, fit);
    kept, dropped := d[..fit], d[fit..];
    assert kept + dropped == d;
    assert [] + (Reversed(kept) + s.queue) == Reversed(kept) + s.queue;
  }

  // ---------- the order invariant ----------

  /** The largest id accepted so far, or -1. */
  function LastId(s: State): int {
    if s.accepted == [] then -1 else s.accepted[|s.accepted| - 1].id
  }

  /** Ids are handed out in ascending order. */
  ghost predicate Ascends(s: State, e: Event) {
    e.Submit? ==> e.r.id > LastId(s)
  }

  /** Handshakes first, then strictly ascending ids. */
  ghost predicate QueueOrdered(q: seq<Request>) {
    && (forall i, j :: 0 <= i < j < |q| && q[j].handshake ==> q[i].handshake)
    && (forall i, j :: 0 <= i < j < |q| && !q[i].handshake ==> q[i].id < q[j].id)
  }

  /** Everything awaiting a response was submitted before everything still queued; while a
      handshake is queued nothing awaits a response. */
  ghost predicate PendingBelow(m: map<nat, Option<Request>>, q: seq<Request>) {
    && (forall k: nat, i :: AwaitsResponse(m, k) && 0 <= i < |q| && !q[i].handshake ==> k < q[i].id)
    && (forall k: nat, i :: AwaitsResponse(m, k) && 0 <= i < |q| ==> !q[i].handshake)
  }

  ghost predicate Bounded(s: State) {
    && (forall i :: 0 <= i < |s.queue| && !s.queue[i].handshake ==> s.queue[i].id <= LastId(s))
    && (forall k: nat :: AwaitsResponse(s.pending, k) ==> k <= LastId(s))
  }

  /** What this connection has taken so far went out in ascending order, before the rest. */
  ghost predicate TakenOrdered(s: State) {
    && (forall i, j :: 0 <= i < j < |s.taken| && !s.taken[i].handshake && !s.taken[j].handshake ==>
        s.taken[i].id < s.taken[j].id)
    && (forall i, j :: 0 <= i < |s.taken| && 0 <= j < |s.queue| && !s.taken[i].handshake && !s.queue[j].handshake ==>
          s.taken[i].id < s.queue[j].id)
    && (forall i :: 0 <= i < |s.taken| && !s.taken[i].handshake ==> s.taken[i].id <= LastId(s))
  }

  ghost predicate Kinds(s: State) {
    && |s.queue| <= QUEUE_CAPACITY
    && (forall i :: 0 <= i < |s.queue| && s.queue[i].handshake ==> !s.queue[i].needCb)
    && (forall k: nat :: AwaitsResponse(s.pending, k) ==> s.pending[k].value.id == k && !s.pending[k].value.handshake)
  }

  ghost predicate OrderInv(s: State) {
    Kinds(s) && QueueOrdered(s.queue) && PendingBelow(s.pending, s.queue) && Bounded(s) && TakenOrdered(s)
  }

  lemma SubmitOrdered(s: State, r: Request, now: nat)
    requires OrderInv(s) && !r.handshake && r.id > LastId(s)
    ensures OrderInv(Send(s, r, now).0)
  {
    var t := Send(s, r, now).0;
    if |s.queue| != QUEUE_CAPACITY {
      assert LastId(t) == r.id > LastId(s);
      assert forall i :: 0 <= i < |s.queue| ==> t.queue[i] == s.queue[i];
      assert t.queue[|s.queue|] == r.(tms := now);
      assert TakenOrdered(t);
      assert QueueOrdered(t.queue);
    }
  }

  lemma TakeOrdered(s: State)
    requires OrderInv(s)
    ensures OrderInv(GetNext(s))
  {
    if s.sending.None? && s.queue != [] {
      var t := GetNext(s);
      assert forall i :: 0 <= i < |t.queue| ==> t.queue[i] == s.queue[i + 1];
      assert forall k :: AwaitsResponse(t.pending, k) ==> AwaitsResponse(s.pending, k) || k == s.queue[0].id;
      HeadTaken(s);
      assert Kinds(t) && QueueOrdered(t.queue) && Bounded(t);
      assert PendingBelow(t.pending, t.queue);
    }
  }

  lemma HeadTaken(s: State)
    requires OrderInv(s) && s.sending.None? && s.queue != []
    ensures TakenOrdered(GetNext(s))
  {
    var t := GetNext(s);
    assert forall i :: 0 <= i < |t.queue| ==> t.queue[i] == s.queue[i + 1];
    assert forall i :: 0 <= i < |s.taken| ==> t.taken[i] == s.taken[i];
    hide PendingBelow;
  }

  /** Fewer requests awaiting a response, same queue. */
  lemma FewerPendingOrdered(s: State, t: State)
    requires OrderInv(s) && t.queue == s.queue && t.taken == s.taken && t.accepted == s.accepted
    requires forall k :: AwaitsResponse(t.pending, k) ==> AwaitsResponse(s.pending, k) && t.pending[k] == s.pending[k]
    ensures OrderInv(t)
  {}

  lemma {:induction false} CheckShrinks(s: State, order: seq<nat>, now: nat)
    ensures var t := Check(s, order, now);
            && t.queue == s.queue && t.taken == s.taken && t.accepted == s.accepted
            && forall k :: AwaitsResponse(t.pending, k) ==> AwaitsResponse(s.pending, k) && t.pending[k] == s.pending[k]
    decreases |order|
  {
    if order != [] {
      CheckShrinks(CheckEntry(s, order[0], now), order[1..], now);
    }
  }

  /** Ascending requests that await a response may go before the queue. */
  lemma PrependOrdered(asc: seq<Request>, q: seq<Request>, m: map<nat, Option<Request>>, now: nat)
    requires AscendingIds(asc) && QueueOrdered(q) && PendingBelow(m, q)
    requires forall r :: r in asc ==> AwaitsResponse(m, r.id) && !r.handshake
    ensures QueueOrdered(asc + q)
  {
    var t := asc + q;
    forall i | 0 <= i < |asc| ensures AwaitsResponse(m, asc[i].id) && !asc[i].handshake {
      assert asc[i] in asc;
    }
  }

  /** The part of the descending list that fits, pushed to the front. */
  lemma ResendListOrdered(s: State, d: seq<Request>, fit: nat, now: nat)
    requires Kinds(s) && QueueOrdered(s.queue) && PendingBelow(s.pending, s.queue) && fit <= |d|
    requires DescendingIds(d) && Holds(d, s.pending, now)
    ensures QueueOrdered(Reversed(d[..fit]) + s.queue)
    ensures forall r :: r in Reversed(d[..fit]) ==> AwaitsResponse(s.pending, r.id) && !r.handshake
  {
    var asc := Reversed(d[..fit]);
    assert AscendingIds(asc);
    forall r | r in asc ensures AwaitsResponse(s.pending, r.id) && !r.handshake {
      var i :| 0 <= i < |asc| && asc[i] == r;
      assert d[fit - 1 - i] == r && r in d;
    }
    PrependOrdered(asc, s.queue, s.pending, now);
  }

  lemma HandshakeOrdered(h: Request, q: seq<Request>)
    requires h.handshake && QueueOrdered(q)
    ensures QueueOrdered([h] + q)
  {}

  /** Replacing the map by the part of it that fits at the front of the queue. */
  lemma RequeueOrdered(s: State, asc: seq<Request>, lost: seq<Request>)
    requires OrderInv(s) && s.taken == [] && |asc| + |s.queue| <= QUEUE_CAPACITY
    requires QueueOrdered(asc + s.queue)
    requires forall r :: r in asc ==> AwaitsResponse(s.pending, r.id) && !r.handshake
    ensures OrderInv(s.(pending := map[], queue := asc + s.queue, lost := lost))
  {
    forall i | 0 <= i < |asc| ensures AwaitsResponse(s.pending, asc[i].id) && !asc[i].handshake {
      assert asc[i] in asc;
    }
  }

  lemma ResendOrdered(s: State, order: seq<nat>, now: nat, handshake: Option<Request>)
    requires OrderInv(s) && s.taken == [] && WalksMap(order, s.pending)
    requires handshake.Some? ==> IsHandshake(handshake.value)
    ensures OrderInv(Resend(s, order, now, handshake))
  {
    if |s.pending| != 0 {
      var d := SortDescending(Stamped(s.pending, order, now));
      var s0 := s.(pending := map[]);
      SortedPending(s.pending, order, now);
      var fit := Least(|d|, QUEUE_CAPACITY - |s.queue|);
      PutAllPreForm(s0, d, fit);
      ResendListOrdered(s, d, fit, now);
      hide SortDescending, Stamped, PutAllPre, PreSend, Holds, DescendingIds, QueueOrdered, PendingBelow, Bounded,
          TakenOrdered, AwaitsResponse;
      RequeueOrdered(s, Reversed(d[..fit]), s.lost + d[fit..]);
      if handshake.Some? {
        PreSendOrdered(PutAllPre(s0, d), handshake.value, now);
      }
    }
  }

  lemma PreSendOrdered(s: State, h: Request, now: nat)
    requires OrderInv(s) && IsHandshake(h) && s.taken == [] && s.pending == map[]
    ensures OrderInv(PreSend(s, h, now))
  {
    HandshakeOrdered(h.(tms := now), s.queue);
  }

  lemma ResetOrdered(s: State, up: bool)
    requires OrderInv(s)
    ensures OrderInv(Reset(s).(up := up))
  {}

  lemma WriteOrdered(s: State, n: int)
    requires OrderInv(s)
    ensures OrderInv(Write(s, n))
  {
    TakeOrdered(s);
    hide OrderInv, GetNext;
    FewerPendingOrdered(GetNext(s), Write(s, n));
  }

  lemma ReceiveOrdered(s: State, f: Response)
    requires OrderInv(s)
    ensures OrderInv(Receive(s, f))
  {
    hide OrderInv;
    FewerPendingOrdered(s, Receive(s, f));
  }

  lemma CheckOrdered(s: State, order: seq<nat>, now: nat)
    requires OrderInv(s)
    ensures OrderInv(Check(s, order, now))
  {
    hide OrderInv, Check;
    CheckShrinks(s, order, now);
    FewerPendingOrdered(s, Check(s, order, now));
  }

  lemma ResponsesOrdered(s: State, responses: seq<Completion>)
    requires OrderInv(s)
    ensures OrderInv(s.(responses := responses))
  {
    hide OrderInv;
    FewerPendingOrdered(s, s.(responses := responses));
  }

  lemma StepOrdered(s: State, e: Event)
    requires Enabled(s, e) && OrderInv(s) && Ascends(s, e)
    ensures OrderInv(Next(s, e))
  {
    hide OrderInv, Send, Write, Receive, Check, Reset, Resend, LastId;
    match e
    case Submit(r, now) => SubmitOrdered(s, r, now);
    case CanWrite(n) => WriteOrdered(s, n);
    case Frame(f) => ReceiveOrdered(s, f);
    case Tick(order, now) => CheckOrdered(s, order, now);
    case Collect => if s.responses != [] { ResponsesOrdered(s, s.responses[1..]); }
    case Others(c) => ResponsesOrdered(s, s.responses + [c]);
    case Disconnected => ResetOrdered(s, false);
    case Reconnected(order, now, h) => ReconnectOrdered(s, order, now, h);
  }

  lemma ReconnectOrdered(s: State, order: seq<nat>, now: nat, h: Option<Request>)
    requires OrderInv(s) && WalksMap(order, s.pending) && (h.Some? ==> IsHandshake(h.value))
    ensures OrderInv(Resend(Reset(s).(up := true), order, now, h))
  {
    ResetOrdered(s, true);
    hide OrderInv, Resend;
    ResendOrdered(Reset(s).(up := true), order, now, h);
  }

  ghost predicate AlwaysAscends(s: State, es: seq<Event>)
    requires Runs(s, es)
    decreases |es|
  {
    es == [] || (Ascends(s, es[0]) && AlwaysAscends(Next(s, es[0]), es[1..]))
  }

  /** If ids are submitted in ascending order then in every reachable state the queue is
      handshakes followed by strictly ascending ids, everything awaiting a response has a
      smaller id than everything queued, and what the connection has sent so far went out in
      ascending order; reconnections, timeouts and overflows included. */
  lemma {:induction false} OrderInAnyRun(s: State, es: seq<Event>)
    requires OrderInv(s) && Runs(s, es) && AlwaysAscends(s, es)
    ensures OrderInv(End(s, es))
    decreases |es|
  {
    hide OrderInv, Ascends, Next;
    if es != [] {
      StepOrdered(s, es[0]);
      OrderInAnyRun(Next(s, es[0]), es[1..]);
    }
  }

  lemma InitOrdered(s: State)
    requires Init(s)
    ensures OrderInv(s)
  {}

  // ---------- ascending ids are fresh ids ----------

  ghost predicate AcceptedBounded(s: State) {
    forall i :: 0 <= i < |s.accepted| ==> s.accepted[i].id <= LastId(s)
  }

  lemma {:induction false} CbIdsMember(q: seq<Request>, x: nat)
    requires x in CbIds(q)
    ensures exists i :: 0 <= i < |q| && q[i].id == x
  {
    if q[0].id != x || !q[0].needCb {
      CbIdsMember(q[1..], x);
      var i :| 0 <= i < |q[1..]| && q[1..][i].id == x;
      assert q[i + 1].id == x;
    }
  }

  lemma AcceptedUnchanged(s: State, e: Event)
    requires Enabled(s, e) && !e.Submit?
    ensures Next(s, e).accepted == s.accepted
  {
    match e
    case Tick(order, now) => CheckShrinks(s, order, now);
    case Reconnected(order, now, h) =>
      PutAllPreIds(Reset(s).(up := true, pending := map[]), SortDescending(Stamped(s.pending, order, now)));
    case _ =>
  }

  lemma {:induction false} AscendingIsFresh(s: State, es: seq<Event>)
    requires Runs(s, es) && AlwaysAscends(s, es) && AcceptedBounded(s)
    ensures AlwaysFresh(s, es)
    decreases |es|
  {
    if es != [] {
      var e := es[0];
      if e.Submit? {
        if e.r.id in CbIds(s.accepted) { CbIdsMember(s.accepted, e.r.id); }
      } else {
        AcceptedUnchanged(s, e);
      }
      AscendingIsFresh(Next(s, e), es[1..]);
    }
  }
}
