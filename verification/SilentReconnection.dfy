/** A reconnection with an empty map resends nothing, not even a handshake: what that means for
    a first connection that is lost before its handshake is answered. */
module SilentReconnection {
  import opened Basics
  import opened Connection
  import opened RingConnection
  import Ring

  /** Neither the ring nor anything else changes but the connection itself. */
  lemma EmptyMapResendsNothing(r: RingState, order: seq<nat>, now: nat, h: Option<Request>)
    requires Enabled(r.rest, Reconnected(order, now, h)) && r.rest.pending == map[]
    ensures var t := RingNext(r, Reconnected(order, now, h));
            && t.ring == r.ring
            && t.rest == r.rest.(up := true, sending := None, sendPos := 0, taken := [], finished := [], wire := [])
  {}

  /** Null entries count: a map that holds only these still brings a handshake. */
  lemma NullEntryBringsHandshake(r: RingState, order: seq<nat>, now: nat, h: Request)
    requires Enabled(r.rest, Reconnected(order, now, Some(h))) && r.ring.nowNum < QUEUE_CAPACITY
    requires r.rest.pending != map[] && forall k :: k in r.rest.pending ==> r.rest.pending[k].None?
    ensures var t := RingNext(r, Reconnected(order, now, Some(h)));
            && t.rest.pending == map[] && t.ring.nowNum == r.ring.nowNum + 1
            && Ring.Live(t.ring)[0] == h.(tms := now)
  {
    NothingStamped(r.rest.pending, order, now);
    assert |r.rest.pending| > 0;
    Ring.PutFrontEffect(r.ring, h.(tms := now));
    hide Ring.Live, Ring.PutFront, Stamped;
  }

  lemma {:induction false} NothingStamped(m: map<nat, Option<Request>>, order: seq<nat>, now: nat)
    requires forall k :: k in order ==> k in m && m[k].None?
    ensures Stamped(m, order, now) == []
    decreases |order|
  {
    if order != [] { NothingStamped(m, order[1..], now); }
  }

  /** Up, with nothing to send and nothing awaited. */
  ghost predicate Quiet(r: RingState, status: StartStatus) {
    && r.ring.nowNum == 0 && r.rest.sending.None? && r.rest.pending == map[]
    && r.rest.wire == [] && r.rest.status == status
  }

  lemma {:induction false} ScanOfNothing(s: State, order: seq<nat>, now: nat)
    requires s.pending == map[]
    ensures Check(s, order, now) == s
    decreases |order|
  {
    if order != [] { ScanOfNothing(s, order[1..], now); }
  }

  lemma QuietKept(r: RingState, status: StartStatus, e: Event)
    requires Quiet(r, status) && Enabled(r.rest, e) && !e.Submit? && !e.Frame?
    ensures Quiet(RingNext(r, e), status)
  {
    match e
    case Tick(order, now) => ScanOfNothing(r.rest, order, now);
    case Reconnected(order, now, h) => EmptyMapResendsNothing(r, order, now, h);
    case _ =>
  }

  /** From then on the client is silent through any number of further reconnections, and the
      status stays what it is, until business code submits or the server speaks first. */
  lemma {:induction false} SilentForever(r: RingState, status: StartStatus, es: seq<Event>)
    requires Quiet(r, status) && RingRuns(r, es) && forall e :: e in es ==> !e.Submit? && !e.Frame?
    ensures Quiet(RingEnd(r, es), status)
    decreases |es|
  {
    hide RingNext, Enabled;
    if es != [] {
      QuietKept(r, status, es[0]);
      SilentForever(RingNext(r, es[0]), status, es[1..]);
    }
  }

  lemma ThreeSteps(r: RingState, e: Event, f: Event, g: Event)
    requires Enabled(r.rest, e) && Enabled(RingNext(r, e).rest, f)
    requires Enabled(RingNext(RingNext(r, e), f).rest, g)
    ensures RingRuns(r, [e, f, g]) && RingEnd(r, [e, f, g]) == RingNext(RingNext(RingNext(r, e), f), g)
  {
    hide RingNext, Enabled;
    assert [e, f, g][1..] == [f, g] && [f, g][1..] == [g] && [g][1..] == [];
    var t := RingNext(r, e);
    var u := RingNext(t, f);
    assert RingRuns(RingNext(u, g), []);
    assert RingRuns(u, [g]);
    assert RingRuns(t, [f, g]) && RingEnd(t, [f, g]) == RingEnd(u, [g]) == RingNext(u, g);
  }

  lemma LosingTheHandshake(r: RingState, n: int, now: nat, h: Request)
    requires RingInit(r) && n > 0 && Ring.Live(r.ring)[0].data != [] && IsHandshake(h)
    ensures var lose := [CanWrite(n), Disconnected, Reconnected([], now, Some(h))];
            RingRuns(r, lose) && Quiet(RingEnd(r, lose), r.rest.status)
  {
    var r1 := RingNext(r, CanWrite(n));
    Ring.TakeFrontRefines(r.ring);
    hide Ring.Live, Ring.Rem, Ring.TakeFront;
    var r2 := RingNext(r1, Disconnected);
    EmptyMapResendsNothing(r2, [], now, Some(h));
    ThreeSteps(r, CanWrite(n), Disconnected, Reconnected([], now, Some(h)));
  }

  /** The first connection, lost after at least a byte of its handshake was written and before
      the reply: the reconnection sends no handshake, and no start status is ever set. */
  lemma FirstHandshakeLost(r: RingState, n: int, now: nat, h: Request, es: seq<Event>)
    requires RingInit(r) && n > 0 && Ring.Live(r.ring)[0].data != [] && IsHandshake(h)
    requires var lose := [CanWrite(n), Disconnected, Reconnected([], now, Some(h))];
             RingRuns(r, lose) ==> RingRuns(RingEnd(r, lose), es)
    requires forall e :: e in es ==> !e.Submit? && !e.Frame?
    ensures var lose := [CanWrite(n), Disconnected, Reconnected([], now, Some(h))];
            RingRuns(r, lose) && Quiet(RingEnd(RingEnd(r, lose), es), r.rest.status)
  {
    LosingTheHandshake(r, n, now, h);
    SilentForever(RingEnd(r, [CanWrite(n), Disconnected, Reconnected([], now, Some(h))]), r.rest.status, es);
    hide RingRuns, Quiet;
  }
}
