/** The wake-up protocol between business threads and the network thread:
    GORM_ClientThread::SendRequest, GORM_SignalEvent::Single and Read, SignalCB, the
    polled thread flag of Work, and the write interest that ClientEvent::Write drops.
    Every access to a shared atomic is one step; any number of producers interleave. */
module Wakeup {

  // ---------- state ----------

  /** Where a producer is inside SendRequest.  Every name says what it has just done. */
  datatype Pc =
    | Idle                  // not in a call
    | Stored                // Put succeeded
    | EventFlagged          // the connection's dataFlag is set
    | ThreadFlagged         // the thread's dataFlag is set; about to call Single
    | Checked               // the first test of m_iDataFlag failed; waiting for the mutex
    | Locked                // holds the mutex; about to test again
    | Claimed               // the second test failed; about to set m_iDataFlag
    | Writing(failed: nat)  // m_iDataFlag is set; writing the byte, after `failed` failed attempts

  datatype Producer = Producer(conn: nat, pc: Pc)

  /** Where the network thread is. */
  datatype NetPc =
    | Top
    | FoundEmpty(c: nat)    // Write: Take found nothing; about to drop write interest
    | Draining              // SignalEvent::Read: reading the pipe
    | Drained               // ... a short read; about to clear m_iDataFlag
    | Polled                // Work: the thread's dataFlag is set; about to clear it
    | Visiting(i: nat)      // SignalCB: about to test connection i
    | Found(i: nat)         // ... its flag is set; about to clear it
    | Adding(i: nat)        // ... flag cleared; about to add write interest
    | Reconnecting(c: nat)  // ClientEvent::Close: connection c is down
    | Resending(c: nat, left: nat)  // ... up again, `left` requests to be put at the front

  /** `sending`: a request has been taken from the queue and not completely written. */
  datatype Conn = Conn(queued: nat, sending: bool, flag: bool, write: bool, connected: bool)

  datatype State = State(
    conns: seq<Conn>,
    threadFlag: bool,
    signalFlag: bool,
    pipe: nat,
    locked: bool,
    producers: seq<Producer>,
    net: NetPc)

  /** After Init: each connection has its handshake queued and its write interest on. */
  ghost predicate Init(s: State) {
    && (forall c :: 0 <= c < |s.conns| ==> s.conns[c].write && s.conns[c].connected)
    && s.threadFlag && !s.signalFlag && s.pipe == 0 && !s.locked
    && (forall p :: 0 <= p < |s.producers| ==> s.producers[p].pc == Idle)
    && s.net == Top
  }

  // ---------- steps ----------

  datatype Event =
    // producer p
    | Put(p: nat, c: nat) | SetEventFlag(p: nat) | SetThreadFlag(p: nat) | FirstTest(p: nat) | Lock(p: nat)
    | SecondTest(p: nat) | SetSignal(p: nat) | WriteByte(p: nat) | WriteFails(p: nat)
    // network thread
    | TakeOne(c: nat) | WriteSome(c: nat, all: bool) | TakeNone(c: nat) | DropWrite | StartRead | ReadPipe
        | ClearSignal | TestFlag | ClearFlag
    | AddWrite | Poll | PollClear | Disconnect(c: nat) | Reopen(resent: nat) | PushFront | EndResend(handshake: bool)
    | GiveUp

  const PIPE_READ: nat := 64
  const WRITE_ATTEMPTS: nat := 16

  predicate IsProducer(s: State, p: nat, pc: Pc) {
    p < |s.producers| && s.producers[p].pc == pc
  }

  predicate IsConn(s: State, c: nat) {
    c < |s.conns|
  }

  predicate MovesProducer(e: Event) {
    || e.Put? || e.SetEventFlag? || e.SetThreadFlag? || e.FirstTest? || e.Lock? || e.SecondTest? || e.SetSignal?
    || e.WriteByte? || e.WriteFails?
  }

  predicate ProducerEnabled(s: State, e: Event)
    requires MovesProducer(e)
  {
    match e
    case Put(p, c) => IsProducer(s, p, Idle) && IsConn(s, c)
    case SetEventFlag(p) => IsProducer(s, p, Stored) && IsConn(s, s.producers[p].conn)
    case SetThreadFlag(p) => IsProducer(s, p, EventFlagged)
    case FirstTest(p) => IsProducer(s, p, ThreadFlagged)
    case Lock(p) => IsProducer(s, p, Checked) && !s.locked
    case SecondTest(p) => IsProducer(s, p, Locked)
    case SetSignal(p) => IsProducer(s, p, Claimed)
    case WriteByte(p) => p < |s.producers| && s.producers[p].pc.Writing?
    case WriteFails(p) => p < |s.producers| && s.producers[p].pc.Writing?
  }

  predicate NetEnabled(s: State, e: Event)
    requires !MovesProducer(e)
  {
    match e
    case TakeOne(c) => s.net == Top && IsConn(s, c) && s.conns[c].write && !s.conns[c].sending && s.conns[c].queued > 0
    case WriteSome(c, _) => s.net == Top && IsConn(s, c) && s.conns[c].write && s.conns[c].sending
    case TakeNone(c) => s.net == Top && IsConn(s, c) && s.conns[c].write && !s.conns[c].sending
        && s.conns[c].queued == 0
    case DropWrite => s.net.FoundEmpty? && IsConn(s, s.net.c)
    case StartRead => s.net == Top && s.pipe > 0
    case ReadPipe => s.net == Draining
    case ClearSignal => s.net == Drained
    case TestFlag => s.net.Visiting?
    case ClearFlag => s.net.Found? && IsConn(s, s.net.i)
    case AddWrite => s.net.Adding? && IsConn(s, s.net.i)
    case Poll => s.net == Top && s.threadFlag
    case PollClear => s.net == Polled
    case Disconnect(c) => s.net == Top && IsConn(s, c) && s.conns[c].connected
    case Reopen(_) => s.net.Reconnecting? && IsConn(s, s.net.c)
    case PushFront => s.net.Resending? && s.net.left > 0 && IsConn(s, s.net.c)
    case EndResend(_) => s.net.Resending? && s.net.left == 0 && IsConn(s, s.net.c)
    case GiveUp => s.net.Reconnecting?
  }

  predicate Enabled(s: State, e: Event) {
    if MovesProducer(e) then ProducerEnabled(s, e) else NetEnabled(s, e)
  }

  function Move(s: State, p: nat, pc: Pc): State
    requires p < |s.producers|
  {
    s.(producers := s.producers[p := s.producers[p].(pc := pc)])
  }

  function Change(s: State, c: nat, conn: Conn): State
    requires IsConn(s, c)
  {
    s.(conns := s.conns[c := conn])
  }

  function ProducerNext(s: State, e: Event): State
    requires MovesProducer(e) && ProducerEnabled(s, e)
  {
    match e
    case Put(p, c) =>
      Change(s, c, s.conns[c].(queued := s.conns[c].queued + 1)).(producers := s.producers[p := Producer(c, Stored)])
    case SetEventFlag(p) =>
      var c := s.producers[p].conn;
      Move(Change(s, c, s.conns[c].(flag := true)), p, EventFlagged)
    case SetThreadFlag(p) => Move(s, p, ThreadFlagged).(threadFlag := true)
    case FirstTest(p) => if s.signalFlag then Move(s, p, Idle) else Move(s, p, Checked)
    case Lock(p) => Move(s, p, Locked).(locked := true)
    case SecondTest(p) => if s.signalFlag then Move(s, p, Idle).(locked := false) else Move(s, p, Claimed)
    case SetSignal(p) => Move(s, p, Writing(0)).(signalFlag := true)
    case WriteByte(p) => Move(s, p, Idle).(pipe := s.pipe + 1, locked := false)
    case WriteFails(p) =>
      var failed := s.producers[p].pc.failed + 1;
      if failed < WRITE_ATTEMPTS then Move(s, p, Writing(failed)) else Move(s, p, Idle).(locked := false)
  }

  function NetNext(s: State, e: Event): State
    requires !MovesProducer(e) && NetEnabled(s, e)
  {
    match e
    case TakeOne(c) => Change(s, c, s.conns[c].(queued := s.conns[c].queued - 1, sending := true))
    case WriteSome(c, all) => Change(s, c, s.conns[c].(sending := !all))
    case TakeNone(c) => s.(net := FoundEmpty(c))
    case DropWrite => Change(s, s.net.c, s.conns[s.net.c].(write := false)).(net := Top)
    case StartRead => s.(net := Draining)
    case ReadPipe => if s.pipe >= PIPE_READ then s.(pipe := s.pipe - PIPE_READ) else s.(pipe := 0, net := Drained)
    case ClearSignal => s.(signalFlag := false, net := Visiting(0))
    case TestFlag =>
      var i := s.net.i;
      if i >= |s.conns| then s.(net := Top) else if s.conns[i].flag then s.(net := Found(i))
          else s.(net := Visiting(i + 1))
    case ClearFlag => Change(s, s.net.i, s.conns[s.net.i].(flag := false)).(net := Adding(s.net.i))
    case AddWrite =>
      // AddEvent does nothing when the connection has no descriptor
      Change(s, s.net.i, s.conns[s.net.i].(write := s.conns[s.net.i].write || s.conns[s.net.i].connected)).(net :=
          Visiting(s.net.i + 1))
    case Poll => s.(net := Polled)
    case PollClear => s.(threadFlag := false, net := Visiting(0))
    case Disconnect(c) =>
      Change(s, c, s.conns[c].(sending := false, write := false, connected := false)).(net := Reconnecting(c))
    case Reopen(k) =>
      // AddEventRW
      Change(s, s.net.c, s.conns[s.net.c].(write := true, connected := true)).(net := Resending(s.net.c, k))
    case PushFront =>
      var c := s.net.c;
      Change(s, c, s.conns[c].(queued := s.conns[c].queued + 1)).(net := Resending(c, s.net.left - 1))
    case EndResend(handshake) =>
      // PreSendRequest of a handshake sets the flag
      Change(s, s.net.c, s.conns[s.net.c].(flag := s.conns[s.net.c].flag || handshake)).(net := Top)
    case GiveUp => s.(net := Top)
  }

  function Next(s: State, e: Event): State
    requires Enabled(s, e)
  {
    if MovesProducer(e) then ProducerNext(s, e) else NetNext(s, e)
  }

  // ---------- what is claimed ----------

  /** Some producer is inside SendRequest for connection c. */
  ghost predicate MidCall(s: State, c: nat) {
    exists p :: 0 <= p < |s.producers| && s.producers[p].conn == c && s.producers[p].pc != Idle
  }

  /** The running SignalCB, or the one that Work is about to start, has yet to test connection c. */
  predicate YetToVisit(net: NetPc, c: nat) {
    match net
    case Polled => true
    case Visiting(i) => i <= c
    case Found(i) => i <= c
    case Adding(i) => i < c
    case _ => false
  }

  ghost predicate SomeoneWriting(s: State) {
    exists p :: 0 <= p < |s.producers| && s.producers[p].pc.Writing?
  }

  /** The pipe will lead to a SignalCB. */
  ghost predicate Signalled(s: State) {
    s.pipe > 0 || SomeoneWriting(s) || s.net == Draining || s.net == Drained
  }

  /** Write interest is on and not about to be dropped, or is about to be added. */
  predicate Lasting(s: State, c: nat)
    requires IsConn(s, c)
  {
    (s.conns[c].write && s.net != FoundEmpty(c)) || s.net == Adding(c)
  }

  /** A connection that has requests to send will be served: by its write interest, or
      because its flag is set and a trigger that leads to SignalCB is pending. */
  predicate Served(s: State, c: nat, trigger: bool)
    requires IsConn(s, c)
  {
    Lasting(s, c) || (s.conns[c].flag && (trigger || YetToVisit(s.net, c)))
  }

  /** Connection c is up and has requests queued, or one half written. */
  predicate Needs(s: State, c: nat) {
    IsConn(s, c) && s.conns[c].connected && (s.conns[c].queued > 0 || s.conns[c].sending)
  }

  /** With the polled thread flag as the trigger. */
  ghost predicate NoLostWakeup(s: State) {
    forall c :: 0 <= c < |s.conns| && Needs(s, c) && !MidCall(s, c) ==>
      Served(s, c, s.threadFlag)
  }

  /** With the pipe alone, as if the thread flag did not exist. */
  ghost predicate NoLostWakeupByPipe(s: State) {
    forall c :: 0 <= c < |s.conns| && Needs(s, c) && !MidCall(s, c) ==>
      Served(s, c, Signalled(s))
  }

  // ---------- inductive invariants ----------

  ghost predicate At(s: State, c: nat, early: bool) {
    exists p :: 0 <= p < |s.producers| && s.producers[p].conn == c &&
                (s.producers[p].pc == Stored || (early && s.producers[p].pc == EventFlagged))
  }

  /** While requests are put back, or one is half written, write interest is on. */
  predicate Backed(s: State, c: nat) {
    && (s.net.Resending? && s.net.c == c ==> IsConn(s, c) && s.conns[c].write)
    && (IsConn(s, c) && s.conns[c].sending && s.conns[c].connected ==> Lasting(s, c))
  }

  ghost predicate FlagInv(s: State, c: nat) {
    Backed(s, c) && (Needs(s, c) ==> Lasting(s, c) || s.conns[c].flag || At(s, c, false))
  }

  ghost predicate PollInv(s: State, c: nat) {
    Needs(s, c) ==> Lasting(s, c) || At(s, c, true) || (s.conns[c].flag && (s.threadFlag || YetToVisit(s.net, c)))
  }

  /** m_iDataFlag set means that a byte is, or will be, or has just been in the pipe. */
  ghost predicate SignalInv(s: State) {
    s.signalFlag ==> Signalled(s)
  }

  ghost predicate PipeInv(s: State, c: nat) {
    Needs(s, c) ==> Lasting(s, c) || MidCall(s, c) || (s.conns[c].flag && (Signalled(s) || YetToVisit(s.net, c)))
  }

  // ---------- each invariant is kept by each step ----------

  /** Producers other than the one that moves stay where they are. */
  lemma OthersStay(s: State, e: Event, p: nat)
    requires Enabled(s, e) && p < |s.producers|
    requires MovesProducer(e) ==> e.p != p
    ensures p < |Next(s, e).producers| && Next(s, e).producers[p] == s.producers[p]
  {
    if MovesProducer(e) { hide NetNext, NetEnabled; } else { hide ProducerNext, ProducerEnabled; }
  }

  lemma AtKept(s: State, e: Event, c: nat)
    requires Enabled(s, e) && At(s, c, false)
    ensures At(Next(s, e), c, false) || (e.SetEventFlag? && s.producers[e.p].conn == c)
  {
    var p :| 0 <= p < |s.producers| && s.producers[p].conn == c && s.producers[p].pc == Stored;
    if !(MovesProducer(e) && e.p == p) {
      OthersStay(s, e, p);
    }
  }

  lemma AtEarlyKept(s: State, e: Event, c: nat)
    requires Enabled(s, e) && At(s, c, true)
    ensures At(Next(s, e), c, true) || (e.SetThreadFlag? && s.producers[e.p].conn == c)
  {
    var t := Next(s, e);
    var p :| 0 <= p < |s.producers| && s.producers[p].conn == c
        && (s.producers[p].pc == Stored || s.producers[p].pc == EventFlagged);
    if !(MovesProducer(e) && e.p == p) {
      OthersStay(s, e, p);
    } else if e.SetEventFlag? {
      assert t.producers[p] == Producer(c, EventFlagged);
    }
  }

  lemma PutStarts(s: State, e: Event)
    requires Enabled(s, e) && e.Put?
    ensures At(Next(s, e), e.c, false)
  {
    assert Next(s, e).producers[e.p] == Producer(e.c, Stored);
  }

  lemma BackedKept(s: State, e: Event, c: nat)
    requires Enabled(s, e) && Backed(s, c)
    ensures Backed(Next(s, e), c)
  {
    if MovesProducer(e) { hide NetNext, NetEnabled; } else { hide ProducerNext, ProducerEnabled; }
  }

  lemma FlagInvKept(s: State, e: Event, c: nat)
    requires Enabled(s, e) && FlagInv(s, c)
    ensures FlagInv(Next(s, e), c)
  {
    BackedKept(s, e, c);
    if At(s, c, false) { AtKept(s, e, c); }
    if e.Put? { PutStarts(s, e); }
    hide At, Backed;
    if MovesProducer(e) { hide NetNext, NetEnabled; } else { hide ProducerNext, ProducerEnabled; }
  }

  lemma PollInvKeptByProducer(s: State, e: Event, c: nat)
    requires MovesProducer(e) && Enabled(s, e) && FlagInv(s, c) && PollInv(s, c)
    ensures PollInv(Next(s, e), c)
  {
    hide NetNext, NetEnabled;
    hide At;
    AtIsEarly(s, c);
    AtIsEarly(Next(s, e), c);
    if At(s, c, false) { AtKept(s, e, c); }
    if At(s, c, true) { AtEarlyKept(s, e, c); }
    if e.Put? { PutStarts(s, e); }
  }

  lemma PollInvKeptByNet(s: State, e: Event, c: nat)
    requires !MovesProducer(e) && Enabled(s, e) && FlagInv(s, c) && PollInv(s, c)
    ensures PollInv(Next(s, e), c)
  {
    hide ProducerNext, ProducerEnabled;
    hide At;
    AtIsEarly(s, c);
    AtIsEarly(Next(s, e), c);
    if At(s, c, false) { AtKept(s, e, c); }
    if At(s, c, true) { AtEarlyKept(s, e, c); }
  }

  lemma PollInvKept(s: State, e: Event, c: nat)
    requires Enabled(s, e) && FlagInv(s, c) && PollInv(s, c)
    ensures PollInv(Next(s, e), c)
  {
    hide ProducerNext, NetNext, ProducerEnabled, NetEnabled;
    if MovesProducer(e) {
      PollInvKeptByProducer(s, e, c);
    } else {
      PollInvKeptByNet(s, e, c);
    }
  }

  lemma AtIsEarly(s: State, c: nat)
    ensures At(s, c, false) ==> At(s, c, true)
  {}

  /** No write attempt fails for the last time. */
  predicate SignalKept(s: State, e: Event)
    requires Enabled(s, e)
  {
    e.WriteFails? ==> s.producers[e.p].pc.failed + 1 < WRITE_ATTEMPTS
  }

  lemma WriterKept(s: State, e: Event)
    requires Enabled(s, e) && SignalKept(s, e) && SomeoneWriting(s)
    ensures SomeoneWriting(Next(s, e)) || e.WriteByte?
  {
    var t := Next(s, e);
    var p :| 0 <= p < |s.producers| && s.producers[p].pc.Writing?;
    if !(MovesProducer(e) && e.p == p) {
      OthersStay(s, e, p);
    } else if !e.WriteByte? {
      assert t.producers[p].pc.Writing?;
    }
  }

  lemma SignalledKept(s: State, e: Event)
    requires Enabled(s, e) && SignalKept(s, e) && Signalled(s)
    ensures Signalled(Next(s, e)) || e == ClearSignal
  {
    hide SomeoneWriting;
    if SomeoneWriting(s) { WriterKept(s, e); }
  }

  lemma SignalInvKept(s: State, e: Event)
    requires Enabled(s, e) && SignalInv(s) && SignalKept(s, e)
    ensures SignalInv(Next(s, e))
  {
    hide Signalled;
    if Signalled(s) { SignalledKept(s, e); }
    if e.SetSignal? { ClaimSignals(s, e); }
  }

  lemma ClaimSignals(s: State, e: Event)
    requires Enabled(s, e) && e.SetSignal?
    ensures Signalled(Next(s, e))
  {
    assert Next(s, e).producers[e.p].pc == Writing(0);
  }

  /** A producer leaves its call only by seeing m_iDataFlag set or by writing the byte. */
  lemma MidCallKept(s: State, e: Event, c: nat)
    requires Enabled(s, e) && SignalKept(s, e) && MidCall(s, c)
    ensures MidCall(Next(s, e), c) || (s.signalFlag && (e.FirstTest? || e.SecondTest?)) || e.WriteByte?
  {
    var p :| 0 <= p < |s.producers| && s.producers[p].conn == c && s.producers[p].pc != Idle;
    if !(MovesProducer(e) && e.p == p) {
      OthersStay(s, e, p);
    } else {
      assert Next(s, e).producers[p].conn == c;
    }
  }

  lemma AtIsMidCall(s: State, c: nat)
    ensures At(s, c, false) ==> MidCall(s, c)
  {}

  lemma PipeInvKeptByProducer(s: State, e: Event, c: nat)
    requires MovesProducer(e) && Enabled(s, e) && FlagInv(s, c) && SignalInv(s) && PipeInv(s, c) && SignalKept(s, e)
    ensures PipeInv(Next(s, e), c)
  {
    hide NetNext, NetEnabled;
    hide At, MidCall, SomeoneWriting;
    AtIsMidCall(Next(s, e), c);
    if At(s, c, false) { AtKept(s, e, c); }
    if MidCall(s, c) { MidCallKept(s, e, c); }
    if SomeoneWriting(s) { WriterKept(s, e); }
    if e.Put? { PutStarts(s, e); }
    if e.SetSignal? { ClaimSignals(s, e); }
  }

  lemma PipeInvKeptByNet(s: State, e: Event, c: nat)
    requires !MovesProducer(e) && Enabled(s, e) && FlagInv(s, c) && SignalInv(s) && PipeInv(s, c) && SignalKept(s, e)
    ensures PipeInv(Next(s, e), c)
  {
    hide ProducerNext, ProducerEnabled;
    hide At, MidCall, SomeoneWriting;
    AtIsMidCall(Next(s, e), c);
    if At(s, c, false) { AtKept(s, e, c); }
    if MidCall(s, c) { MidCallKept(s, e, c); }
    if SomeoneWriting(s) { WriterKept(s, e); }
  }

  lemma PipeInvKept(s: State, e: Event, c: nat)
    requires Enabled(s, e) && FlagInv(s, c) && SignalInv(s) && PipeInv(s, c) && SignalKept(s, e)
    ensures PipeInv(Next(s, e), c)
  {
    hide ProducerNext, NetNext, ProducerEnabled, NetEnabled;
    if MovesProducer(e) {
      PipeInvKeptByProducer(s, e, c);
    } else {
      PipeInvKeptByNet(s, e, c);
    }
  }

  // ---------- whole runs ----------

  predicate Runs(s: State, es: seq<Event>)
    decreases |es|
  {
    es == [] || (Enabled(s, es[0]) && Runs(Next(s, es[0]), es[1..]))
  }

  function End(s: State, es: seq<Event>): State
    requires Runs(s, es)
    decreases |es|
  {
    if es == [] then s else End(Next(s, es[0]), es[1..])
  }

  predicate SignalAlwaysKept(s: State, es: seq<Event>)
    requires Runs(s, es)
    decreases |es|
  {
    es == [] || (SignalKept(s, es[0]) && SignalAlwaysKept(Next(s, es[0]), es[1..]))
  }

  ghost predicate PollInvAll(s: State) {
    forall c: nat :: FlagInv(s, c) && PollInv(s, c)
  }

  ghost predicate PipeInvAll(s: State) {
    SignalInv(s) && forall c: nat :: FlagInv(s, c) && PipeInv(s, c)
  }

  lemma {:induction false} PollInvRun(s: State, es: seq<Event>)
    requires PollInvAll(s) && Runs(s, es)
    ensures PollInvAll(End(s, es))
    decreases |es|
  {
    hide FlagInv, PollInv;
    if es != [] {
      forall c: nat ensures FlagInv(Next(s, es[0]), c) && PollInv(Next(s, es[0]), c) {
        FlagInvKept(s, es[0], c);
        PollInvKept(s, es[0], c);
      }
      PollInvRun(Next(s, es[0]), es[1..]);
    }
  }

  lemma {:induction false} PipeInvRun(s: State, es: seq<Event>)
    requires PipeInvAll(s) && Runs(s, es) && SignalAlwaysKept(s, es)
    ensures PipeInvAll(End(s, es))
    decreases |es|
  {
    hide FlagInv, PipeInv, SignalInv;
    if es != [] {
      SignalInvKept(s, es[0]);
      forall c: nat ensures FlagInv(Next(s, es[0]), c) && PipeInv(Next(s, es[0]), c) {
        FlagInvKept(s, es[0], c);
        PipeInvKept(s, es[0], c);
      }
      PipeInvRun(Next(s, es[0]), es[1..]);
    }
  }

  /** No wake-up is lost: in every state of every interleaving, a connection that is up and
      has queued requests, with no producer still inside its call, is being served or will be.
      The byte in the pipe may fail to be written any number of times. */
  lemma NoLostWakeupInAnyRun(s: State, es: seq<Event>)
    requires Init(s) && Runs(s, es)
    ensures NoLostWakeup(End(s, es))
  {
    hide Runs, End;
    assert PollInvAll(s);
    PollInvRun(s, es);
    var t := End(s, es);
    forall c | 0 <= c < |t.conns| && Needs(t, c) && !MidCall(t, c)
      ensures Served(t, c, t.threadFlag)
    {
      assert PollInv(t, c);
      EarlyIsMidCall(t, c);
    }
  }

  lemma EarlyIsMidCall(s: State, c: nat)
    ensures At(s, c, true) ==> MidCall(s, c)
  {}

  /** The pipe alone gives the same guarantee, provided no signal exhausts its 16 attempts. */
  lemma NoLostWakeupByPipeInAnyRun(s: State, es: seq<Event>)
    requires Init(s) && Runs(s, es) && SignalAlwaysKept(s, es)
    ensures NoLostWakeupByPipe(End(s, es))
  {
    hide Runs, End, SignalAlwaysKept;
    assert PipeInvAll(s);
    PipeInvRun(s, es);
    var t := End(s, es);
    forall c | 0 <= c < |t.conns| && Needs(t, c) && !MidCall(t, c)
      ensures Served(t, c, Signalled(t))
    {
      assert PipeInv(t, c);
    }
  }

  /** A request half written is not stranded either: whatever the producers do, the write
      interest of its connection is on and not about to be dropped. */
  lemma HalfWrittenIsServed(s: State, es: seq<Event>, c: nat)
    requires Init(s) && Runs(s, es)
    ensures var t := End(s, es); IsConn(t, c) && t.conns[c].connected && t.conns[c].sending ==> Lasting(t, c)
  {
    hide Runs, End;
    assert PollInvAll(s);
    PollInvRun(s, es);
    assert FlagInv(End(s, es), c);
  }

  // ---------- coalescing, and what an exhausted signal costs ----------

  predicate Holding(pc: Pc) { pc == Locked || pc == Claimed || pc.Writing? }

  ghost predicate MutexInv(s: State) {
    && (forall p, q :: 0 <= p < |s.producers| && 0 <= q < |s.producers| && p != q ==>
          !(Holding(s.producers[p].pc) && Holding(s.producers[q].pc)))
    && (forall p :: 0 <= p < |s.producers| && Holding(s.producers[p].pc) ==> s.locked)
  }

  predicate Reading(s: State) { s.net == Draining || s.net == Drained }

  /** What a producer at pc knows about the shared token. */
  predicate Knows(s: State, pc: Pc) {
    (pc == Claimed ==> !s.signalFlag) && (pc.Writing? ==> s.signalFlag && s.pipe == 0 && !Reading(s))
  }

  /** The mutex is exclusive, and m_iDataFlag is a token: clear, it means an empty pipe and
      no reader; while one producer is between claiming it and writing its byte there is no
      byte and no reader. */
  ghost predicate TokenInv(s: State) {
    && MutexInv(s)
    && (!s.signalFlag ==> s.pipe == 0 && !Reading(s))
    && (forall p :: 0 <= p < |s.producers| ==> Knows(s, s.producers[p].pc))
    && s.pipe <= 1
    && (s.net == Drained ==> s.pipe == 0)
  }

  /** Every producer but the one that moves is unchanged. */
  lemma OnlyOneMoves(s: State, e: Event)
    requires Enabled(s, e)
    ensures |Next(s, e).producers| == |s.producers|
    ensures forall q :: 0 <= q < |s.producers| && !(MovesProducer(e) && e.p == q) ==>
            Next(s, e).producers[q] == s.producers[q]
  {
    forall q | 0 <= q < |s.producers| && !(MovesProducer(e) && e.p == q)
      ensures Next(s, e).producers[q] == s.producers[q]
    {
      OthersStay(s, e, q);
    }
  }

  /** How the moving producer changes its hold on the mutex. */
  lemma MoverHolds(s: State, e: Event)
    requires Enabled(s, e) && MovesProducer(e)
    ensures var p, t := e.p, Next(s, e);
            && (Holding(t.producers[p].pc) && !Holding(s.producers[p].pc) ==> e.Lock? && !s.locked)
            && (s.locked && !t.locked ==> Holding(s.producers[p].pc))
            && (Holding(t.producers[p].pc) ==> t.locked || (s.locked == t.locked && Holding(s.producers[p].pc)))
            && (s.locked && !t.locked ==> !Holding(t.producers[p].pc))
  {}

  lemma MutexInvKept(s: State, e: Event)
    requires Enabled(s, e) && MutexInv(s)
    ensures MutexInv(Next(s, e))
  {
    OnlyOneMoves(s, e);
    if MovesProducer(e) {
      MoverHolds(s, e);
      hide Next, Enabled;
    } else {
      assert Next(s, e).locked == s.locked;
      hide Next, Enabled;
    }
  }

  lemma KnowsKept(s: State, e: Event, q: nat)
    requires Enabled(s, e) && TokenInv(s) && q < |s.producers|
    requires q < |Next(s, e).producers|
    ensures Knows(Next(s, e), Next(s, e).producers[q].pc)
  {
    var t := Next(s, e);
    assert Knows(s, s.producers[q].pc);
    if MovesProducer(e) {
      assert Knows(s, s.producers[e.p].pc);
      if e.p != q {
        OthersStay(s, e, q);
        assert Holding(s.producers[q].pc) ==> !Holding(s.producers[e.p].pc);
      }
    } else {
      OthersStay(s, e, q);
    }
  }

  lemma PipeTokenKept(s: State, e: Event)
    requires Enabled(s, e) && TokenInv(s)
    ensures var t := Next(s, e);
            && (!t.signalFlag ==> t.pipe == 0 && !Reading(t))
            && t.pipe <= 1
            && (t.net == Drained ==> t.pipe == 0)
  {
    if MovesProducer(e) {
      assert Knows(s, s.producers[e.p].pc);
      hide NetNext, NetEnabled;
    } else {
      hide ProducerNext, ProducerEnabled;
    }
  }

  lemma TokenInvKept(s: State, e: Event)
    requires Enabled(s, e) && TokenInv(s)
    ensures TokenInv(Next(s, e))
  {
    MutexInvKept(s, e);
    PipeTokenKept(s, e);
    OnlyOneMoves(s, e);
    forall q | 0 <= q < |Next(s, e).producers|
      ensures Knows(Next(s, e), Next(s, e).producers[q].pc)
    {
      KnowsKept(s, e, q);
    }
    hide Next, Knows, MutexInv, Reading;
  }

  lemma {:induction false} TokenInvRun(s: State, es: seq<Event>)
    requires TokenInv(s) && Runs(s, es)
    ensures TokenInv(End(s, es))
    decreases |es|
  {
    if es != [] {
      TokenInvKept(s, es[0]);
      hide TokenInv;
      TokenInvRun(Next(s, es[0]), es[1..]);
    }
  }

  /** However many producers signal, the pipe never holds more than one byte. */
  lemma SignalsCoalesce(s: State, es: seq<Event>)
    requires Init(s) && Runs(s, es)
    ensures End(s, es).pipe <= 1
  {
    hide Runs, End;
    TokenInvRun(s, es);
  }

  /** m_iDataFlag is set but nothing will ever be in the pipe. */
  ghost predicate PipeDead(s: State) {
    && s.signalFlag && s.pipe == 0 && s.net != Draining && s.net != Drained
    && forall p :: 0 <= p < |s.producers| ==> s.producers[p].pc != Claimed && !s.producers[p].pc.Writing?
  }

  lemma PipeDeadKept(s: State, e: Event)
    requires Enabled(s, e) && PipeDead(s)
    ensures PipeDead(Next(s, e)) && e != StartRead
  {
    if MovesProducer(e) { hide NetNext, NetEnabled; } else { hide ProducerNext, ProducerEnabled; }
  }

  lemma {:induction false} PipeDeadForever(s: State, es: seq<Event>)
    requires PipeDead(s) && Runs(s, es)
    ensures PipeDead(End(s, es)) && StartRead !in es
    decreases |es|
  {
    hide PipeDead;
    if es != [] {
      PipeDeadKept(s, es[0]);
      PipeDeadForever(Next(s, es[0]), es[1..]);
      assert es == [es[0]] + es[1..];
    }
  }

  /** The proviso of the pipe guarantee is needed: a signal that fails its last attempt leaves
      m_iDataFlag set with no byte, every later Single returns at once, and no continuation
      ever reads the pipe again.  From then on only the polled thread flag wakes anybody. */
  lemma ExhaustedSignalKillsPipe(s: State, es: seq<Event>, e: Event, rest: seq<Event>)
    requires Init(s) && Runs(s, es) && Enabled(End(s, es), e) && !SignalKept(End(s, es), e)
    requires Runs(Next(End(s, es), e), rest)
    ensures StartRead !in rest && PipeDead(End(Next(End(s, es), e), rest))
  {
    hide Runs, End;
    var t := End(s, es);
    assert TokenInv(s);
    TokenInvRun(s, es);
    assert PipeDead(Next(t, e));
    PipeDeadForever(Next(t, e), rest);
  }

  /** The pipe's guarantee does fail then: one connection, drained and its write interest
      dropped, and one producer whose 16 writes all fail. */
  lemma PipeGuaranteeFails(s: State) returns (es: seq<Event>)
    requires Init(s) && |s.conns| == 1 && |s.producers| == 1
    requires s.conns[0].queued == 0 && !s.conns[0].sending && !s.conns[0].flag
    ensures Runs(s, es) && !NoLostWakeupByPipe(End(s, es))
  {
    hide Runs, End;
    NoSteps(s);
    es := [];
    var t := s;
    var up := Conn(0, false, false, true, true);
    assert s.conns == [up];
    es, t := Extend(s, es, t, TakeNone(0));
    es, t := Extend(s, es, t, DropWrite);
    es, t := Extend(s, es, t, Put(0, 0));
    es, t := Extend(s, es, t, SetEventFlag(0));
    es, t := Extend(s, es, t, SetThreadFlag(0));
    es, t := Extend(s, es, t, FirstTest(0));
    es, t := Extend(s, es, t, Lock(0));
    es, t := Extend(s, es, t, SecondTest(0));
    es, t := Extend(s, es, t, SetSignal(0));
    assert t.producers == [Producer(0, Writing(0))];
    es, t := KeepFailing(s, es, t);
    assert t.conns == [up.(queued := 1, flag := true, write := false)] && t.net == Top && t.pipe == 0;
    assert Needs(t, 0) && !MidCall(t, 0) && !Served(t, 0, Signalled(t));
  }

  lemma Extend(s: State, es: seq<Event>, t: State, e: Event) returns (fs: seq<Event>, u: State)
    requires Runs(s, es) && End(s, es) == t && Enabled(t, e)
    ensures Runs(s, fs) && End(s, fs) == u == Next(t, e)
  {
    hide Runs, End, Enabled, Next;
    OneStep(t, e);
    RunsAppend(s, es, [e]);
    fs, u := es + [e], Next(t, e);
  }

  lemma {:induction false} KeepFailing(s: State, es: seq<Event>, t: State) returns (fs: seq<Event>, u: State)
    requires Runs(s, es) && End(s, es) == t && |t.producers| == 1
    requires t.producers[0].pc.Writing? && t.producers[0].pc.failed < WRITE_ATTEMPTS
    ensures Runs(s, fs) && End(s, fs) == u
    ensures u == t.(producers := [Producer(t.producers[0].conn, Idle)], locked := false)
    decreases WRITE_ATTEMPTS - t.producers[0].pc.failed
  {
    hide Runs, End;
    fs, u := Extend(s, es, t, WriteFails(0));
    if t.producers[0].pc.failed + 1 < WRITE_ATTEMPTS {
      fs, u := KeepFailing(s, fs, u);
    }
  }

  // ---------- progress ----------

  /** Once SignalCB is running and has not passed c, its own steps turn c's write interest on. */
  lemma {:induction false} VisitReaches(s: State, c: nat) returns (es: seq<Event>)
    requires IsConn(s, c) && s.conns[c].connected && s.conns[c].flag
    requires s.net.Visiting? && s.net.i <= c
    ensures Runs(s, es) && |es| <= 3 * (c - s.net.i) + 3 && forall e :: e in es ==> !MovesProducer(e)
    ensures IsConn(End(s, es), c) && End(s, es).conns[c].write
    decreases c - s.net.i
  {
    var i := s.net.i;
    var visit := if s.conns[i].flag then [TestFlag, ClearFlag, AddWrite] else [TestFlag];
    VisitOne(s);
    var t := End(s, visit);
    if i == c {
      es := visit;
    } else {
      var more := VisitReaches(t, c);
      RunsAppend(s, visit, more);
      es := visit + more;
    }
  }

  lemma VisitOne(s: State)
    requires s.net.Visiting? && IsConn(s, s.net.i)
    ensures var i := s.net.i;
            var visit := if s.conns[i].flag then [TestFlag, ClearFlag, AddWrite] else [TestFlag];
            && Runs(s, visit)
            && End(s, visit).net == Visiting(i + 1)
            && |End(s, visit).conns| == |s.conns|
            && (forall c :: 0 <= c < |s.conns| && c != i ==> End(s, visit).conns[c] == s.conns[c])
            && (s.conns[i].flag && s.conns[i].connected ==> End(s, visit).conns[i].write)
  {
    hide ProducerNext, ProducerEnabled, Runs, End;
    OneStep(s, TestFlag);
    if s.conns[s.net.i].flag {
      ThreeSteps(s, TestFlag, ClearFlag, AddWrite);
    }
  }

  lemma ThreeSteps(s: State, e: Event, f: Event, g: Event)
    requires Enabled(s, e) && Enabled(Next(s, e), f) && Enabled(Next(Next(s, e), f), g)
    ensures Runs(s, [e, f, g]) && End(s, [e, f, g]) == Next(Next(Next(s, e), f), g)
  {
    hide Enabled, Next;
    var t := Next(s, e);
    OneStep(s, e);
    OneStep(t, f);
    OneStep(Next(t, f), g);
    RunsAppend(t, [f], [g]);
    RunsAppend(s, [e], [f] + [g]);
    assert [e] + ([f] + [g]) == [e, f, g];
  }

  lemma {:induction false} RunsAppend(s: State, es: seq<Event>, fs: seq<Event>)
    requires Runs(s, es) && Runs(End(s, es), fs)
    ensures Runs(s, es + fs) && End(s, es + fs) == End(End(s, es), fs)
    decreases |es|
  {
    hide Enabled, Next;
    if es == [] {
      assert es + fs == fs;
    } else {
      assert (es + fs)[1..] == es[1..] + fs;
      RunsAppend(Next(s, es[0]), es[1..], fs);
    }
  }

  /** In a reachable state with the network thread at the top of its loop and no producer inside
      a call for c, a queued request on c gets write interest by steps of the network thread
      alone, however the run went before. */
  lemma QueuedRequestGetsServed(s: State, es: seq<Event>, c: nat) returns (fs: seq<Event>)
    requires Init(s) && Runs(s, es)
    requires var t := End(s, es); t.net == Top && Needs(t, c) && !MidCall(t, c)
    ensures Runs(End(s, es), fs) && forall e :: e in fs ==> !MovesProducer(e)
    ensures var u := End(End(s, es), fs); IsConn(u, c) && u.conns[c].write
  {
    hide Runs, End;
    NoLostWakeupInAnyRun(s, es);
    var t := End(s, es);
    assert Served(t, c, t.threadFlag);
    if t.conns[c].write {
      fs := [];
      assert Runs(t, []) && End(t, []) == t by { NoSteps(t); }
    } else {
      var u := Next(t, Poll);
      var v := Next(u, PollClear);
      var more := VisitReaches(v, c);
      OneStep(t, Poll);
      OneStep(u, PollClear);
      RunsAppend(u, [PollClear], more);
      RunsAppend(t, [Poll], [PollClear] + more);
      fs := [Poll] + ([PollClear] + more);
    }
  }

  lemma NoSteps(s: State)
    ensures Runs(s, []) && End(s, []) == s
  {}

  lemma OneStep(s: State, e: Event)
    requires Enabled(s, e)
    ensures Runs(s, [e]) && End(s, [e]) == Next(s, e)
  {
    assert [e][1..] == [];
  }
}
