/** Requests in the wake-up protocol: none appears, disappears or is overtaken by a half-written
    one, whatever the threads do. */
module RequestFlow {
  import opened Wakeup

  /** A request enters the queue of connection c: from a producer, or put back by a resend. */
  predicate Enters(s: State, e: Event, c: nat) {
    (e.Put? && e.c == c) || (e.PushFront? && s.net.Resending? && s.net.c == c)
  }

  /** A request of connection c is done with: written to its last byte, or cut off half-way. */
  predicate Leaves(s: State, e: Event, c: nat) {
    e == WriteSome(c, true) || (e == Disconnect(c) && IsConn(s, c) && s.conns[c].sending)
  }

  /** Requests of a connection that wait or are half written. */
  function Held(s: State, c: nat): nat
    requires IsConn(s, c)
  {
    s.conns[c].queued + (if s.conns[c].sending then 1 else 0)
  }

  function One(b: bool): nat { if b then 1 else 0 }

  function Entered(s: State, es: seq<Event>, c: nat): nat
    requires Runs(s, es)
    decreases |es|
  {
    if es == [] then 0 else One(Enters(s, es[0], c)) + Entered(Next(s, es[0]), es[1..], c)
  }

  function Left(s: State, es: seq<Event>, c: nat): nat
    requires Runs(s, es)
    decreases |es|
  {
    if es == [] then 0 else One(Leaves(s, es[0], c)) + Left(Next(s, es[0]), es[1..], c)
  }

  lemma Flow(s: State, e: Event, c: nat)
    requires Enabled(s, e) && IsConn(s, c)
    ensures IsConn(Next(s, e), c) && Held(Next(s, e), c) + One(Leaves(s, e, c)) == Held(s, c) + One(Enters(s, e, c))
  {
    if MovesProducer(e) { hide NetNext, NetEnabled; } else { hide ProducerNext, ProducerEnabled; }
  }

  /** In every run: what is queued or half written at the end is what was at first and what
      entered, less what was written completely or cut off. */
  lemma {:induction false} NoneDisappears(s: State, es: seq<Event>, c: nat)
    requires Runs(s, es) && IsConn(s, c)
    ensures IsConn(End(s, es), c)
            && Held(End(s, es), c) + Left(s, es, c) == Held(s, c) + Entered(s, es, c)
    decreases |es|
  {
    if es != [] {
      Flow(s, es[0], c);
      hide Enabled, Next, Held, Enters, Leaves;
      NoneDisappears(Next(s, es[0]), es[1..], c);
    }
  }

  /** The next request is taken only when none is half written. */
  lemma NoneOvertakes(s: State, e: Event, c: nat)
    requires Enabled(s, e) && IsConn(s, c) && s.conns[c].sending && !Leaves(s, e, c)
    ensures IsConn(Next(s, e), c) && Next(s, e).conns[c].sending && Next(s, e).conns[c].queued >= s.conns[c].queued
  {
    if MovesProducer(e) { hide NetNext, NetEnabled; } else { hide ProducerNext, ProducerEnabled; }
  }

  /** A connection that is down has no write interest and no request half written. */
  ghost predicate DownIsIdle(s: State) {
    forall c :: 0 <= c < |s.conns| && !s.conns[c].connected ==> !s.conns[c].write && !s.conns[c].sending
  }

  lemma DownIsIdleKept(s: State, e: Event)
    requires Enabled(s, e) && DownIsIdle(s)
    ensures DownIsIdle(Next(s, e))
  {
    if MovesProducer(e) { hide NetNext, NetEnabled; } else { hide ProducerNext, ProducerEnabled; }
  }

  /** Nothing is taken or written while a connection is down, in any run. */
  lemma {:induction false} DownIsIdleInAnyRun(s: State, es: seq<Event>)
    requires DownIsIdle(s) && Runs(s, es)
    ensures DownIsIdle(End(s, es))
    decreases |es|
  {
    hide Enabled, Next, DownIsIdle;
    if es != [] {
      DownIsIdleKept(s, es[0]);
      DownIsIdleInAnyRun(Next(s, es[0]), es[1..]);
    }
  }
}
