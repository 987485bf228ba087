/** Business code takes completions in the order in which they were put on the response list. */
module ResponseOrder {
  import opened Basics
  import opened Connection
  import opened RingConnection

  /** What a step puts on the list: its own completions, or one of another connection. */
  ghost function Put(r: RingState, e: Event): seq<Completion>
    requires Enabled(r.rest, e)
  {
    var t := RingNext(r, e);
    if e.Others? then (if |r.rest.responses| < RESPONSE_CAPACITY then [e.c] else [])
    else if |t.rest.completed| > |r.rest.completed| then t.rest.completed[|r.rest.completed|..] else []
  }

  ghost function AllPut(r: RingState, es: seq<Event>): seq<Completion>
    requires RingRuns(r, es)
    decreases |es|
  {
    if es == [] then [] else Put(r, es[0]) + AllPut(RingNext(r, es[0]), es[1..])
  }

  /** What Collect returns along a run. */
  ghost function AllCollected(r: RingState, es: seq<Event>): seq<Completion>
    requires RingRuns(r, es)
    decreases |es|
  {
    if es == [] then [] else
    (if es[0].Collect? && r.rest.responses != [] then [r.rest.responses[0]] else [])
    + AllCollected(RingNext(r, es[0]), es[1..])
  }

  /** The list and the history of completions grow by the same things. */
  predicate GrowTogether(s: State, t: State) {
    && |s.completed| <= |t.completed|
    && t.completed == s.completed + t.completed[|s.completed|..]
    && t.responses == s.responses + t.completed[|s.completed|..]
  }

  lemma {:induction false} ScanGrows(s: State, order: seq<nat>, now: nat)
    ensures GrowTogether(s, Check(s, order, now))
    decreases |order|
  {
    if order != [] {
      var t := CheckEntry(s, order[0], now);
      assert GrowTogether(s, t);
      ScanGrows(t, order[1..], now);
      hide CheckEntry;
      var u := Check(t, order[1..], now);
      assert u.completed[|s.completed|..] == t.completed[|s.completed|..] + u.completed[|t.completed|..];
    }
  }

  lemma {:induction false} PutAllPreGrowsNothing(r: RingState, v: seq<Request>)
    ensures var t := RingPutAllPre(r, v).rest;
            t.completed == r.rest.completed && t.responses == r.rest.responses
    decreases |v|
  {
    if v != [] { PutAllPreGrowsNothing(RingPutPre(r, v[0]), v[1..]); }
  }

  lemma ReconnectGrowsNothing(r: RingState, order: seq<nat>, now: nat, h: Option<Request>)
    requires Enabled(r.rest, Reconnected(order, now, h))
    ensures var t := RingNext(r, Reconnected(order, now, h)).rest;
            t.completed == r.rest.completed && t.responses == r.rest.responses
  {
    var r0 := r.(rest := Reset(r.rest).(up := true, pending := map[]));
    PutAllPreGrowsNothing(r0, SortDescending(Stamped(r.rest.pending, order, now)));
    hide SortDescending, Stamped, RingPutAllPre, WalksMap;
  }

  lemma StepResponses(r: RingState, e: Event)
    requires Enabled(r.rest, e)
    ensures var t := RingNext(r, e);
            if e.Collect? && r.rest.responses != []
            then Put(r, e) == [] && r.rest.responses == [r.rest.responses[0]] + t.rest.responses
            else t.rest.responses == r.rest.responses + Put(r, e)
  {
    match e
    case Tick(order, now) => ScanGrows(r.rest, order, now);
    case Reconnected(order, now, h) => ReconnectGrowsNothing(r, order, now, h);
    case _ =>
  }

  lemma Regroup<T>(q: seq<T>, q': seq<T>, put: seq<T>, later: seq<T>, left: seq<T>, more: seq<T>, collect: bool)
    requires if collect && q != [] then put == [] && q == [q[0]] + q' else q' == q + put
    requires later + left == q' + more
    ensures (if collect && q != [] then [q[0]] else []) + later + left == q + (put + more)
  {
    if collect && q != [] {
      assert [q[0]] + later + left == [q[0]] + (later + left);
      assert [q[0]] + (q' + more) == q + ([] + more);
    } else {
      assert [] + later + left == later + left && q + put + more == q + (put + more);
    }
  }

  /** In every run, with other connections putting theirs in between: what was collected, followed
      by what is still on the list, is what was there at first, followed by all that was put. */
  lemma {:induction false} FirstInFirstOut(r: RingState, es: seq<Event>)
    requires RingRuns(r, es)
    ensures AllCollected(r, es) + RingEnd(r, es).rest.responses == r.rest.responses + AllPut(r, es)
    decreases |es|
  {
    if es == [] {
      assert [] + r.rest.responses == r.rest.responses + [];
    } else {
      var e, t := es[0], RingNext(r, es[0]);
      StepResponses(r, e);
      FirstInFirstOut(t, es[1..]);
      hide RingNext, Enabled, Put;
      Regroup(r.rest.responses, t.rest.responses, Put(r, e), AllCollected(t, es[1..]),
              RingEnd(t, es[1..]).rest.responses, AllPut(t, es[1..]), e.Collect?);
    }
  }
}
