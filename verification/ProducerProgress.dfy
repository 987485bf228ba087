/** SendRequest cannot hang: the mutex of a signal is always released by its holder, and every
    call can be completed by steps of the business threads alone. */
module ProducerProgress {
  import opened Wakeup

  /** The mutex is locked only while some producer holds it. */
  ghost predicate LockInv(s: State) {
    s.locked ==> exists p :: 0 <= p < |s.producers| && Holding(s.producers[p].pc)
  }

  /** A producer inside a call works on a connection that exists. */
  ghost predicate ConnInv(s: State) {
    forall p :: 0 <= p < |s.producers| && s.producers[p].pc != Idle ==> IsConn(s, s.producers[p].conn)
  }

  lemma ConnsStay(s: State, e: Event)
    requires Enabled(s, e)
    ensures |Next(s, e).conns| == |s.conns|
  {
    if MovesProducer(e) { hide NetNext, NetEnabled; } else { hide ProducerNext, ProducerEnabled; }
  }

  lemma ConnInvKept(s: State, e: Event)
    requires Enabled(s, e) && ConnInv(s)
    ensures ConnInv(Next(s, e))
  {
    OnlyOneMoves(s, e);
    ConnsStay(s, e);
  }

  /** The step that releases the mutex is its holder's, and the step that locks it makes a holder. */
  lemma LockInvKept(s: State, e: Event)
    requires Enabled(s, e) && MutexInv(s) && LockInv(s)
    ensures LockInv(Next(s, e))
  {
    OnlyOneMoves(s, e);
    var t := Next(s, e);
    if t.locked {
      if s.locked {
        var q :| 0 <= q < |s.producers| && Holding(s.producers[q].pc);
        if MovesProducer(e) && e.p == q { HolderHolds(s, e); } else { assert t.producers[q] == s.producers[q]; }
      } else {
        assert e.Lock? && Holding(t.producers[e.p].pc);
      }
    }
  }

  lemma HolderHolds(s: State, e: Event)
    requires Enabled(s, e) && MovesProducer(e) && Holding(s.producers[e.p].pc)
    requires s.locked
    ensures Holding(Next(s, e).producers[e.p].pc) <==> Next(s, e).locked
  {}

  lemma {:induction false} InvariantsRun(s: State, es: seq<Event>)
    requires MutexInv(s) && LockInv(s) && ConnInv(s) && Runs(s, es)
    ensures MutexInv(End(s, es)) && LockInv(End(s, es)) && ConnInv(End(s, es))
    decreases |es|
  {
    if es != [] {
      MutexInvKept(s, es[0]);
      LockInvKept(s, es[0]);
      ConnInvKept(s, es[0]);
      hide MutexInv, LockInv, ConnInv, Enabled, Next;
      InvariantsRun(Next(s, es[0]), es[1..]);
    }
  }

  // ---------- completing calls ----------

  /** How far a call has to go at most. */
  function Remaining(pc: Pc): nat {
    match pc
    case Idle => 0
    case Writing(_) => 1
    case Claimed => 2
    case Locked => 3
    case Checked => 4
    case ThreadFlagged => 5
    case EventFlagged => 6
    case Stored => 7
  }

  /** The step a producer takes next, the write of the byte being one that succeeds. */
  function Own(p: nat, pc: Pc): Event
    requires pc != Idle
  {
    match pc
    case Stored => SetEventFlag(p)
    case EventFlagged => SetThreadFlag(p)
    case ThreadFlagged => FirstTest(p)
    case Checked => Lock(p)
    case Locked => SecondTest(p)
    case Claimed => SetSignal(p)
    case Writing(_) => WriteByte(p)
  }

  predicate ByProducer(es: seq<Event>, p: nat) {
    forall e :: e in es ==> MovesProducer(e) && e.p == p && !e.Put?
  }

  /** One own step of a producer that is not kept waiting for the mutex. */
  lemma OwnStep(s: State, p: nat)
    requires p < |s.producers| && s.producers[p].pc != Idle && ConnInv(s)
    requires s.locked <==> Holding(s.producers[p].pc)
    ensures var e := Own(p, s.producers[p].pc);
            && Enabled(s, e) && MovesProducer(e) && e.p == p && !e.Put? && ConnInv(Next(s, e))
            && var t := Next(s, e);
               && t.producers == s.producers[p := t.producers[p]]
               && Remaining(t.producers[p].pc) < Remaining(s.producers[p].pc)
               && (t.locked <==> Holding(t.producers[p].pc))
  {
    ConnInvKept(s, Own(p, s.producers[p].pc));
    hide NetNext, NetEnabled, ConnInv;
  }

  /** At most seven steps. */
  lemma {:induction false} Finish(s: State, p: nat) returns (es: seq<Event>)
    requires p < |s.producers| && ConnInv(s) && (s.locked <==> Holding(s.producers[p].pc))
    ensures Runs(s, es) && ByProducer(es, p) && |es| <= Remaining(s.producers[p].pc)
    ensures var t := End(s, es);
            && ConnInv(t) && !t.locked && |t.producers| == |s.producers| && t.producers[p].pc == Idle
            && forall q :: 0 <= q < |s.producers| && q != p ==> t.producers[q] == s.producers[q]
    decreases Remaining(s.producers[p].pc)
  {
    hide Runs, End, ConnInv;
    if s.producers[p].pc == Idle {
      es := [];
      NoSteps(s);
    } else {
      var e := Own(p, s.producers[p].pc);
      OwnStep(s, p);
      hide Enabled, Next;
      OneStep(s, e);
      var more := Finish(Next(s, e), p);
      RunsAppend(s, [e], more);
      es := [e] + more;
    }
  }

  /** With the mutex free the producers from p on finish one after the other. */
  lemma {:induction false} FinishFrom(s: State, p: nat) returns (es: seq<Event>)
    requires p <= |s.producers| && ConnInv(s) && !s.locked
    requires forall q :: 0 <= q < |s.producers| ==> !Holding(s.producers[q].pc)
    ensures Runs(s, es) && forall e :: e in es ==> MovesProducer(e) && !e.Put?
    ensures var t := End(s, es);
            && !t.locked && |t.producers| == |s.producers|
            && (forall q :: p <= q < |s.producers| ==> t.producers[q].pc == Idle)
            && (forall q :: 0 <= q < p ==> t.producers[q] == s.producers[q])
    decreases |s.producers| - p
  {
    hide Runs, End, ConnInv;
    if p == |s.producers| {
      es := [];
      NoSteps(s);
    } else {
      var one := Finish(s, p);
      var more := FinishFrom(End(s, one), p + 1);
      RunsAppend(s, one, more);
      es := one + more;
    }
  }

  /** No deadlock: from every reachable state, wherever the producers and the network thread are,
      steps of producers alone complete every call and free the mutex. */
  lemma EveryCallCompletes(s: State, run: seq<Event>) returns (es: seq<Event>)
    requires Init(s) && Runs(s, run)
    ensures Runs(End(s, run), es) && forall e :: e in es ==> MovesProducer(e) && !e.Put?
    ensures var t := End(End(s, run), es);
            !t.locked && forall p :: 0 <= p < |t.producers| ==> t.producers[p].pc == Idle
  {
    hide Runs, End;
    InvariantsRun(s, run);
    var t := End(s, run);
    if t.locked {
      var h :| 0 <= h < |t.producers| && Holding(t.producers[h].pc);
      var first := Finish(t, h);
      var rest := FinishFrom(End(t, first), 0);
      RunsAppend(t, first, rest);
      es := first + rest;
    } else {
      es := FinishFrom(t, 0);
    }
  }
}
