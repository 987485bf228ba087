/** The other half of the wake-up protocol: with nothing to send the network thread comes to
    rest.  Flags, pipe and write interest do not keep it busy for ever. */
module Quiescence {
  import opened Wakeup

  /** No producer is inside a call, and no request is queued or half written. */
  ghost predicate NothingToDo(s: State) {
    && (forall p :: 0 <= p < |s.producers| ==> s.producers[p].pc == Idle)
    && (forall c :: 0 <= c < |s.conns| ==> s.conns[c].queued == 0 && !s.conns[c].sending)
  }

  /** The thread has nothing left to do but notice that a connection is lost. */
  ghost predicate AtRest(s: State) {
    && s.net == Top && !s.threadFlag && s.pipe == 0
    && (forall c :: 0 <= c < |s.conns| ==> !s.conns[c].write)
    && (forall e: Event :: !MovesProducer(e) && NetEnabled(s, e) ==> e.Disconnect?)
  }

  predicate ByNetwork(es: seq<Event>) {
    forall e :: e in es ==> !MovesProducer(e)
  }

  // ---------- a whole SignalCB ----------

  function VisitedConn(c: Conn): Conn {
    c.(flag := false, write := c.write || (c.flag && c.connected))
  }

  /** Connections from i on have been visited. */
  function Visited(conns: seq<Conn>, i: nat): seq<Conn> {
    seq(|conns|, c requires 0 <= c < |conns| => if c >= i then VisitedConn(conns[c]) else conns[c])
  }

  lemma VisitFlagged(s: State) returns (es: seq<Event>)
    requires s.net.Visiting? && IsConn(s, s.net.i)
    ensures Runs(s, es) && ByNetwork(es)
    ensures End(s, es) == Change(s, s.net.i, VisitedConn(s.conns[s.net.i])).(net := Visiting(s.net.i + 1))
  {
    hide Runs, End, ProducerNext, ProducerEnabled;
    if s.conns[s.net.i].flag {
      var t := Next(s, TestFlag);
      var u := Next(t, ClearFlag);
      var v := Next(u, AddWrite);
      assert v == Change(s, s.net.i, VisitedConn(s.conns[s.net.i])).(net := Visiting(s.net.i + 1));
      es := [TestFlag, ClearFlag, AddWrite];
      hide NetNext, NetEnabled;
      ThreeSteps(s, TestFlag, ClearFlag, AddWrite);
    } else {
      es := [TestFlag];
      OneStep(s, TestFlag);
      assert s.conns == s.conns[s.net.i := VisitedConn(s.conns[s.net.i])];
    }
  }

  lemma {:induction false} VisitAll(s: State) returns (es: seq<Event>)
    requires s.net.Visiting? && s.net.i <= |s.conns|
    ensures Runs(s, es) && ByNetwork(es)
    ensures End(s, es) == s.(conns := Visited(s.conns, s.net.i), net := Top)
    decreases |s.conns| - s.net.i
  {
    hide Runs, End, ProducerNext, ProducerEnabled;
    var i := s.net.i;
    if i == |s.conns| {
      es := [TestFlag];
      OneStep(s, TestFlag);
      assert Visited(s.conns, i) == s.conns;
    } else {
      var one := VisitFlagged(s);
      var t := End(s, one);
      var more := VisitAll(t);
      RunsAppend(s, one, more);
      es := one + more;
      assert Visited(t.conns, i + 1) == Visited(s.conns, i);
    }
  }

  // ---------- what starts one ----------

  /** Work's poll of the thread flag, if it is set. */
  lemma AnswerFlag(s: State) returns (es: seq<Event>)
    requires s.net == Top
    ensures Runs(s, es) && ByNetwork(es)
    ensures End(s, es) == if s.threadFlag then s.(threadFlag := false, conns := Visited(s.conns, 0)) else s
  {
    hide Runs, End, ProducerNext, ProducerEnabled;
    if s.threadFlag {
      var t := Next(s, Poll);
      var u := Next(t, PollClear);
      OneStep(s, Poll);
      OneStep(t, PollClear);
      var visit := VisitAll(u);
      RunsAppend(t, [PollClear], visit);
      RunsAppend(s, [Poll], [PollClear] + visit);
      es := [Poll] + ([PollClear] + visit);
    } else {
      es := [];
      NoSteps(s);
    }
  }

  lemma {:induction false} Drain(s: State) returns (es: seq<Event>)
    requires s.net == Draining
    ensures Runs(s, es) && ByNetwork(es)
    ensures End(s, es) == s.(pipe := 0, net := Drained)
    decreases s.pipe
  {
    hide Runs, End, ProducerNext, ProducerEnabled;
    OneStep(s, ReadPipe);
    es := [ReadPipe];
    if s.pipe >= PIPE_READ {
      var more := Drain(Next(s, ReadPipe));
      RunsAppend(s, [ReadPipe], more);
      es := [ReadPipe] + more;
    }
  }

  /** SignalEvent::Read and SignalCB, if there is anything in the pipe. */
  lemma AnswerPipe(s: State) returns (es: seq<Event>)
    requires s.net == Top
    ensures Runs(s, es) && ByNetwork(es)
    ensures End(s, es) == if s.pipe > 0 then s.(pipe := 0, signalFlag := false, conns := Visited(s.conns, 0)) else s
  {
    hide Runs, End, ProducerNext, ProducerEnabled;
    if s.pipe > 0 {
      var t := Next(s, StartRead);
      OneStep(s, StartRead);
      var drain := Drain(t);
      var u := End(t, drain);
      OneStep(u, ClearSignal);
      var visit := VisitAll(Next(u, ClearSignal));
      RunsAppend(u, [ClearSignal], visit);
      RunsAppend(t, drain, [ClearSignal] + visit);
      RunsAppend(s, [StartRead], drain + ([ClearSignal] + visit));
      es := [StartRead] + (drain + ([ClearSignal] + visit));
    } else {
      es := [];
      NoSteps(s);
    }
  }

  // ---------- write interest ----------

  function Unwatched(conns: seq<Conn>, i: nat): seq<Conn> {
    seq(|conns|, c requires 0 <= c < |conns| => if c >= i then conns[c].(write := false) else conns[c])
  }

  /** Every connection from i on is found writable, has nothing to send, and is no longer watched. */
  lemma {:induction false} DropAll(s: State, i: nat) returns (es: seq<Event>)
    requires s.net == Top && NothingToDo(s) && i <= |s.conns|
    ensures Runs(s, es) && ByNetwork(es)
    ensures End(s, es) == s.(conns := Unwatched(s.conns, i))
    decreases |s.conns| - i
  {
    hide Runs, End, ProducerNext, ProducerEnabled;
    if i == |s.conns| {
      es := [];
      NoSteps(s);
      assert Unwatched(s.conns, i) == s.conns;
    } else if s.conns[i].write {
      var t := Next(s, TakeNone(i));
      var u := Next(t, DropWrite);
      OneStep(s, TakeNone(i));
      OneStep(t, DropWrite);
      var more := DropAll(u, i + 1);
      RunsAppend(t, [DropWrite], more);
      RunsAppend(s, [TakeNone(i)], [DropWrite] + more);
      es := [TakeNone(i)] + ([DropWrite] + more);
      assert Unwatched(u.conns, i + 1) == Unwatched(s.conns, i);
    } else {
      es := DropAll(s, i + 1);
      assert Unwatched(s.conns, i + 1) == Unwatched(s.conns, i);
    }
  }

  // ---------- rest ----------

  /** From any state at the top of the loop with nothing to do, steps of the network thread alone
      lead to rest: both triggers answered, no write interest, and if there was a trigger no
      connection flagged either.  Nothing else changes. */
  lemma ComesToRest(s: State) returns (es: seq<Event>)
    requires s.net == Top && NothingToDo(s)
    ensures Runs(s, es) && ByNetwork(es)
    ensures var t := End(s, es);
            && AtRest(t)
            && |t.conns| == |s.conns| && t.producers == s.producers && t.locked == s.locked
            && (forall c :: 0 <= c < |s.conns| ==>
                  t.conns[c] == s.conns[c].(write := false,
                                            flag := s.conns[c].flag && !s.threadFlag && s.pipe == 0))
            && t.signalFlag == (s.signalFlag && s.pipe == 0)
  {
    hide Runs, End, ProducerNext, ProducerEnabled, Next, Enabled, NetEnabled, NetNext;
    var flag := AnswerFlag(s);
    var t := End(s, flag);
    var pipe := AnswerPipe(t);
    var u := End(t, pipe);
    var drop := DropAll(u, 0);
    RunsAppend(t, pipe, drop);
    RunsAppend(s, flag, pipe + drop);
    es := flag + (pipe + drop);
    RestIsRest(End(u, drop));
  }

  lemma RestIsRest(s: State)
    requires s.net == Top && !s.threadFlag && s.pipe == 0 && forall c :: 0 <= c < |s.conns| ==> !s.conns[c].write
    ensures AtRest(s)
  {
    forall e: Event | !MovesProducer(e) && NetEnabled(s, e) ensures e.Disconnect? {}
  }

  /** In every reachable state at the top of the loop with nothing to do; and the signal's own flag
      is clear too, so that the next signal writes its byte, if no signal exhausted its writes. */
  lemma ReachableRest(s: State, run: seq<Event>) returns (es: seq<Event>)
    requires Init(s) && Runs(s, run) && End(s, run).net == Top && NothingToDo(End(s, run))
    ensures var t := End(s, run);
            && Runs(t, es) && ByNetwork(es) && AtRest(End(t, es))
            && (SignalAlwaysKept(s, run) ==> !End(t, es).signalFlag)
  {
    hide Runs, End, SignalAlwaysKept;
    var t := End(s, run);
    es := ComesToRest(t);
    if SignalAlwaysKept(s, run) {
      assert PipeInvAll(s);
      PipeInvRun(s, run);
      assert SignalInv(t);
    }
  }
}
