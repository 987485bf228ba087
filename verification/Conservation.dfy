/** Whole-run conservation for a connection: every accepted request that wants a callback
    is in exactly one place, and is completed at most once. */
module Conservation {
  import opened Basics
  import opened Connection

  // ---------- ids ----------

  /** Ids of the requests that want a callback, with multiplicity. */
  function CbIds(q: seq<Request>): multiset<nat> {
    if q == [] then multiset{} else (if q[0].needCb then multiset{q[0].id} else multiset{}) + CbIds(q[1..])
  }

  function CompletedIds(c: seq<Completion>): multiset<nat> {
    if c == [] then multiset{} else multiset{c[0].req.id} + CompletedIds(c[1..])
  }

  function PendingIds(m: map<nat, Option<Request>>): multiset<nat> {
    multiset(set k | k in m && m[k].Some?)
  }

  lemma {:induction false} CbIdsAppend(a: seq<Request>, b: seq<Request>)
    ensures CbIds(a + b) == CbIds(a) + CbIds(b)
  {
    if a == [] {
      assert a + b == b;
    } else {
      assert (a + b)[1..] == a[1..] + b;
      CbIdsAppend(a[1..], b);
    }
  }

  lemma CbIdsOne(r: Request)
    ensures CbIds([r]) == if r.needCb then multiset{r.id} else multiset{}
  {
    assert [r][1..] == [];
  }

  lemma {:induction false} CompletedIdsAppend(a: seq<Completion>, c: Completion)
    ensures CompletedIds(a + [c]) == CompletedIds(a) + multiset{c.req.id}
  {
    if a == [] {
      assert a + [c] == [c];
    } else {
      assert (a + [c])[1..] == a[1..] + [c];
      CompletedIdsAppend(a[1..], c);
    }
  }

  lemma PendingIdsRemove(m: map<nat, Option<Request>>, k: nat)
    requires k in m
    ensures PendingIds(m) == PendingIds(m - {k}) + (if m[k].Some? then multiset{k} else multiset{})
  {
    var a, b := (set j | j in m && m[j].Some?), (set j | j in m - {k} && (m - {k})[j].Some?);
    assert a == if m[k].Some? then b + {k} else b;
  }

  lemma PendingIdsAdd(m: map<nat, Option<Request>>, k: nat, v: Option<Request>)
    requires k in m ==> m[k].None?
    ensures PendingIds(m[k := v]) == PendingIds(m) + (if v.Some? then multiset{k} else multiset{})
  {
    var m' := m[k := v];
    var a, b := (set j | j in m && m[j].Some?), (set j | j in m' && m'[j].Some?);
    assert b == if v.Some? then a + {k} else a;
  }

  // ---------- the invariant ----------

  /** Each accepted id is in the queue, in the map, completed, or lost: counted exactly. */
  ghost predicate Conserved(s: State) {
    CbIds(s.accepted) == CbIds(s.queue) + PendingIds(s.pending) + CompletedIds(s.completed) + CbIds(s.lost)
  }

  ghost predicate Keyed(s: State) {
    forall k :: k in s.pending && s.pending[k].Some? ==> s.pending[k].value.id == k && s.pending[k].value.needCb
  }

  ghost predicate DistinctIds(s: State) {
    forall x :: x in CbIds(s.accepted) ==> CbIds(s.accepted)[x] == 1
  }

  ghost predicate Inv(s: State) {
    Conserved(s) && Keyed(s) && DistinctIds(s)
  }

  /** A newly submitted id has not been accepted before. */
  ghost predicate Fresh(s: State, e: Event) {
    e.Submit? && e.r.needCb ==> e.r.id !in CbIds(s.accepted)
  }

  // ---------- every operation keeps it ----------

  lemma SendKeeps(s: State, r: Request, now: nat)
    requires Inv(s) && (r.needCb ==> r.id !in CbIds(s.accepted))
    ensures Inv(Send(s, r, now).0)
  {
    hide CbIds, PendingIds, CompletedIds;
    var r' := r.(tms := now);
    CbIdsAppend(s.queue, [r']);
    CbIdsAppend(s.accepted, [r']);
    CbIdsOne(r');
  }

  lemma HeadIds(q: seq<Request>)
    requires q != []
    ensures CbIds(q) == (if q[0].needCb then multiset{q[0].id} else multiset{}) + CbIds(q[1..])
  {}

  /** An id counted once in a sum is in only one of its parts. */
  lemma CountedOnce(x: nat, all: multiset<nat>, a: multiset<nat>, b: multiset<nat>, c: multiset<nat>)
    requires all == multiset{x} + a + b + c && all[x] == 1
    ensures x !in a && x !in b && x !in c
  {}

  lemma NotPending(s: State, r: Request)
    requires Inv(s) && s.queue != [] && s.queue[0] == r && r.needCb
    ensures r.id in s.pending ==> s.pending[r.id].None?
  {
    HeadIds(s.queue);
    assert r.id in CbIds(s.accepted);
    CountedOnce(r.id, CbIds(s.accepted), CbIds(s.queue[1..]), PendingIds(s.pending),
        CompletedIds(s.completed) + CbIds(s.lost));
  }

  lemma PendingAfterTake(s: State)
    requires Inv(s) && s.sending.None? && s.queue != []
    ensures var r := s.queue[0];
            PendingIds(GetNext(s).pending) == PendingIds(s.pending) + (if r.needCb then multiset{r.id} else multiset{})
  {
    var r := s.queue[0];
    if r.needCb {
      NotPending(s, r);
      PendingIdsAdd(s.pending, r.id, Some(r));
    }
  }

  lemma GetNextConserves(s: State)
    requires Inv(s) && s.sending.None? && s.queue != []
    ensures Conserved(GetNext(s))
  {
    hide CbIds, PendingIds, CompletedIds;
    var r := s.queue[0];
    HeadIds(s.queue);
    PendingAfterTake(s);
    var x := if r.needCb then multiset{r.id} else multiset{};
    MoveTerm(CbIds(s.accepted), x, CbIds(s.queue[1..]), PendingIds(s.pending), CompletedIds(s.completed),
        CbIds(s.lost));
  }

  lemma GetNextKeeps(s: State)
    requires Inv(s)
    ensures Inv(GetNext(s))
  {
    hide Conserved, CbIds;
    if s.sending.None? && s.queue != [] {
      GetNextConserves(s);
    }
  }

  lemma MoveTerm(all: multiset<nat>, x: multiset<nat>, q: multiset<nat>, p: multiset<nat>, c: multiset<nat>,
      l: multiset<nat>)
    requires all == (x + q) + p + c + l
    ensures all == q + (p + x) + c + l
  {}

  lemma CompleteKeeps(s: State, r: Request, result: Result)
    requires Keyed(s) && DistinctIds(s) && r.needCb
    requires CbIds(s.accepted) ==
             CbIds(s.queue) + PendingIds(s.pending) + multiset{r.id} + CompletedIds(s.completed) + CbIds(s.lost)
    ensures Inv(Complete(s, r, result))
  {
    hide CbIds, PendingIds, CompletedIds;
    CbIdsAppend(s.lost, [r]);
    CbIdsOne(r);
    CompletedIdsAppend(s.completed, Completion(r, result));
  }

  /** Removing a non-null entry and completing its request. */
  lemma RemoveAndCompleteKeeps(s: State, k: nat, result: Result)
    requires Inv(s) && k in s.pending && s.pending[k].Some?
    ensures Inv(Complete(s.(pending := s.pending - {k}), s.pending[k].value, result))
  {
    PendingIdsRemove(s.pending, k);
    hide CbIds, PendingIds, CompletedIds, Complete;
    CompleteKeeps(s.(pending := s.pending - {k}), s.pending[k].value, result);
  }

  /** The invariant sees only the ids in the map. */
  lemma SameIdsKeep(s: State, m: map<nat, Option<Request>>)
    requires Inv(s) && PendingIds(m) == PendingIds(s.pending)
    requires forall k :: k in m && m[k].Some? ==> k in s.pending && m[k] == s.pending[k]
    ensures Inv(s.(pending := m))
  {
    hide CbIds, PendingIds, CompletedIds;
  }

  lemma NullEntryKeeps(s: State, k: nat)
    requires Inv(s) && (k in s.pending ==> s.pending[k].None?)
    ensures Inv(s.(pending := s.pending[k := None]))
    ensures Inv(s.(pending := s.pending - {k}))
  {
    hide Inv, PendingIds;
    PendingIdsAdd(s.pending, k, None);
    SameIdsKeep(s, s.pending[k := None]);
    if k in s.pending {
      PendingIdsRemove(s.pending, k);
    } else {
      assert s.pending - {k} == s.pending;
    }
    SameIdsKeep(s, s.pending - {k});
  }

  lemma ReceiveKeeps(s: State, f: Response)
    requires Inv(s)
    ensures Inv(Receive(s, f))
  {
    hide CbIds, PendingIds, CompletedIds, Complete;
    if f.id in s.pending && s.pending[f.id].Some? {
      hide Inv;
      RemoveAndCompleteKeeps(s, f.id, if f.err != 0 then Failed(f.err) else Answered(f.cmd, f.body));
    } else {
      NullEntryKeeps(s, f.id);
    }
  }

  lemma CheckEntryKeeps(s: State, k: nat, now: nat)
    requires Inv(s)
    ensures Inv(CheckEntry(s, k, now))
  {
    hide CbIds, PendingIds, CompletedIds, Complete;
    hide Inv;
    if k in s.pending {
      if s.pending[k].None? {
        NullEntryKeeps(s, k);
      } else if Expired(s.pending[k].value.tms, now) {
        RemoveAndCompleteKeeps(s, k, TimedOut);
      }
    }
  }

  lemma {:induction false} CheckKeeps(s: State, order: seq<nat>, now: nat)
    requires Inv(s)
    ensures Inv(Check(s, order, now))
    decreases |order|
  {
    hide Inv;
    if order != [] {
      CheckEntryKeeps(s, order[0], now);
      CheckKeeps(CheckEntry(s, order[0], now), order[1..], now);
    }
  }

  // resend

  lemma WalkRest<T>(order: seq<nat>, m: map<nat, T>)
    requires WalksMap(order, m) && order != []
    ensures order[0] in m && WalksMap(order[1..], m - {order[0]})
  {
    var rest, m' := order[1..], m - {order[0]};
    assert order == [order[0]] + rest;
    forall j ensures j in rest <==> j in m' {
      assert j in rest ==> j != order[0];
    }
  }

  lemma {:induction false} StampedIds(m: map<nat, Option<Request>>, order: seq<nat>, now: nat)
    requires WalksMap(order, m)
    requires forall k :: k in m && m[k].Some? ==> m[k].value.id == k && m[k].value.needCb
    ensures CbIds(Stamped(m, order, now)) == PendingIds(m)
    decreases |order|
  {
    if order == [] {
      assert m == map[];
    } else {
      var k, rest := order[0], order[1..];
      WalkRest(order, m);
      StampedIds(m - {k}, rest, now);
      StampedSame(m, m - {k}, rest, now);
      PendingIdsRemove(m, k);
      var head := if m[k].Some? then [m[k].value.(tms := now)] else [];
      CbIdsAppend(head, Stamped(m, rest, now));
      if m[k].Some? { CbIdsOne(head[0]); }
      hide WalksMap, PendingIds;
    }
  }

  lemma {:induction false} StampedSame(m: map<nat, Option<Request>>, m': map<nat, Option<Request>>, order: seq<nat>,
      now: nat)
    requires forall k :: k in order ==> k in m && k in m' && m[k] == m'[k]
    ensures Stamped(m, order, now) == Stamped(m', order, now)
    decreases |order|
  {
    if order != [] {
      StampedSame(m, m', order[1..], now);
    }
  }

  lemma {:induction false} InsertIds(r: Request, v: seq<Request>)
    ensures CbIds(InsertDescending(r, v)) == CbIds([r]) + CbIds(v)
  {
    if v == [] || r.id > v[0].id {
      CbIdsAppend([r], v);
    } else {
      InsertIds(r, v[1..]);
      CbIdsAppend([v[0]], InsertDescending(r, v[1..]));
      CbIdsAppend([v[0]], v[1..]);
      assert v == [v[0]] + v[1..];
    }
  }

  lemma {:induction false} SortIds(v: seq<Request>)
    ensures CbIds(SortDescending(v)) == CbIds(v)
  {
    if v != [] {
      SortIds(v[1..]);
      InsertIds(v[0], SortDescending(v[1..]));
      CbIdsAppend([v[0]], v[1..]);
      assert v == [v[0]] + v[1..];
    }
  }

  lemma PutPreIds(s: State, r: Request)
    ensures var t := PutPre(s, r);
            && CbIds(t.queue) + CbIds(t.lost) == CbIds(s.queue) + CbIds(s.lost) + CbIds([r])
            && t == s.(queue := t.queue, lost := t.lost)
  {
    CbIdsAppend([r], s.queue);
    CbIdsAppend(s.lost, [r]);
  }

  lemma {:induction false} PutAllPreIds(s: State, v: seq<Request>)
    ensures var t := PutAllPre(s, v);
            && CbIds(t.queue) + CbIds(t.lost) == CbIds(s.queue) + CbIds(s.lost) + CbIds(v)
            && t == s.(queue := t.queue, lost := t.lost)
    decreases |v|
  {
    if v != [] {
      PutPreIds(s, v[0]);
      PutAllPreIds(PutPre(s, v[0]), v[1..]);
      HeadIds(v);
      CbIdsOne(v[0]);
      hide CbIds;
    }
  }

  lemma Regroup(all: multiset<nat>, q: multiset<nat>, v: multiset<nat>, c: multiset<nat>, l: multiset<nat>,
      q': multiset<nat>, l': multiset<nat>)
    requires all == q + v + c + l && q' + l' == q + l + v
    ensures all == q' + multiset{} + c + l'
  {
    assert q + v + c + l == (q + l + v) + c;
    assert (q' + l') + c == q' + multiset{} + c + l';
  }

  lemma PutAllPreKeeps(s: State, v: seq<Request>)
    requires Keyed(s) && DistinctIds(s) && s.pending == map[]
    requires CbIds(s.accepted) == CbIds(s.queue) + CbIds(v) + CompletedIds(s.completed) + CbIds(s.lost)
    ensures Inv(PutAllPre(s, v))
  {
    PutAllPreIds(s, v);
    EmptyMap();
    hide CbIds, PendingIds, CompletedIds, PutAllPre;
    var t := PutAllPre(s, v);
    assert t.pending == map[] && PendingIds(t.pending) == multiset{};
    Regroup(CbIds(s.accepted), CbIds(s.queue), CbIds(v), CompletedIds(s.completed), CbIds(s.lost), CbIds(t.queue),
        CbIds(t.lost));
  }

  lemma PreSendKeeps(s: State, h: Request, now: nat)
    requires Inv(s) && IsHandshake(h)
    ensures Inv(PreSend(s, h, now))
  {
    hide CbIds, PendingIds, CompletedIds;
    CbIdsAppend([h.(tms := now)], s.queue);
    CbIdsOne(h.(tms := now));
  }

  lemma ResendKeeps(s: State, order: seq<nat>, now: nat, handshake: Option<Request>)
    requires Inv(s) && WalksMap(order, s.pending) && (handshake.Some? ==> IsHandshake(handshake.value))
    ensures Inv(Resend(s, order, now, handshake))
  {
    if |s.pending| != 0 {
      var v := Stamped(s.pending, order, now);
      var s0 := s.(pending := map[]);
      StampedIds(s.pending, order, now);
      SortIds(v);
      hide CbIds, PendingIds, CompletedIds, PutAllPre, SortDescending, Stamped, PreSend;
      PutAllPreKeeps(s0, SortDescending(v));
      if handshake.Some? {
        PreSendKeeps(PutAllPre(s0, SortDescending(v)), handshake.value, now);
      }
    }
  }

  lemma EmptyMap()
    ensures PendingIds(map[]) == multiset{}
  {}

  lemma WriteKeeps(s: State, n: int)
    requires Inv(s)
    ensures Inv(Write(s, n))
  {
    hide CbIds, PendingIds, CompletedIds, GetNext;
    GetNextKeeps(s);
  }

  lemma StepKeeps(s: State, e: Event)
    requires Enabled(s, e) && Inv(s) && Fresh(s, e)
    ensures Inv(Next(s, e))
  {
    hide CbIds, PendingIds, CompletedIds, Send, Write, Receive, Check, Resend;
    match e
    case Submit(r, now) => SendKeeps(s, r, now);
    case CanWrite(n) => WriteKeeps(s, n);
    case Frame(f) => ReceiveKeeps(s, f);
    case Tick(order, now) => CheckKeeps(s, order, now);
    case Collect =>
    case Others(_) =>
    case Disconnected =>
    case Reconnected(order, now, h) => ResendKeeps(Reset(s).(up := true), order, now, h);
  }

  // ---------- whole runs ----------

  ghost predicate AlwaysFresh(s: State, es: seq<Event>)
    requires Runs(s, es)
    decreases |es|
  {
    es == [] || (Fresh(s, es[0]) && AlwaysFresh(Next(s, es[0]), es[1..]))
  }

  lemma {:induction false} RunKeeps(s: State, es: seq<Event>)
    requires Runs(s, es) && AlwaysFresh(s, es) && Inv(s)
    ensures Inv(End(s, es))
    decreases |es|
  {
    hide Inv, Fresh, Next;
    if es != [] {
      StepKeeps(s, es[0]);
      RunKeeps(Next(s, es[0]), es[1..]);
    }
  }

  lemma InitHolds(s: State)
    requires Init(s)
    ensures Inv(s)
  {
    assert s.queue == [s.queue[0]];
    CbIdsOne(s.queue[0]);
    EmptyMap();
  }

  /** How often x is queued, awaiting a response, completed, lost. */
  ghost predicate InOnePlace(s: State, x: nat) {
    CbIds(s.queue)[x] + PendingIds(s.pending)[x] + CompletedIds(s.completed)[x] + CbIds(s.lost)[x] == 1
  }

  /** After any run with fresh ids, whatever mix of partial writes, unknown, duplicate or
      failed responses, timeouts and reconnections: every accepted id is in exactly one place,
      no other id is anywhere, and nothing is completed twice. */
  lemma ConservationInAnyRun(s: State, es: seq<Event>)
    requires Init(s) && Runs(s, es) && AlwaysFresh(s, es)
    ensures var t := End(s, es);
            && (forall x :: x in CbIds(t.accepted) ==> InOnePlace(t, x))
            && (forall x :: x !in CbIds(t.accepted) ==>
                  x !in CbIds(t.queue) && x !in PendingIds(t.pending) && x !in CompletedIds(t.completed)
                      && x !in CbIds(t.lost))
            && (forall x :: CompletedIds(t.completed)[x] <= 1)
  {
    InitHolds(s);
    RunKeeps(s, es);
    hide End, Runs, AlwaysFresh, Init;
    var t := End(s, es);
    forall x ensures CbIds(t.accepted)[x] == CbIds(t.queue)[x] + PendingIds(t.pending)[x]
        + CompletedIds(t.completed)[x] + CbIds(t.lost)[x] {}
  }

  // ---------- when something is lost ----------

  /** Neither bounded queue overflows in this step; the response list counts what all the
      connections of the thread have put there. */
  ghost predicate HasRoom(s: State, e: Event) {
    match e
    case Frame(_) => |s.responses| < RESPONSE_CAPACITY
    case Tick(_, _) => |s.responses| + |s.pending| <= RESPONSE_CAPACITY
    case Reconnected(_, _, _) => |s.queue| + |s.pending| <= QUEUE_CAPACITY
    case _ => true
  }

  lemma {:induction false} WalkLength<T>(order: seq<nat>, m: map<nat, T>)
    requires WalksMap(order, m)
    ensures |order| == |m|
    decreases |order|
  {
    if order == [] {
      assert m == map[];
    } else {
      WalkRest(order, m);
      WalkLength(order[1..], m - {order[0]});
      assert m.Keys == (m - {order[0]}).Keys + {order[0]};
    }
  }

  lemma {:induction false} StampedLength(m: map<nat, Option<Request>>, order: seq<nat>, now: nat)
    requires forall k :: k in order ==> k in m
    ensures |Stamped(m, order, now)| <= |order|
    decreases |order|
  {
    if order != [] {
      StampedLength(m, order[1..], now);
    }
  }

  lemma {:induction false} SortLength(v: seq<Request>)
    ensures |SortDescending(v)| == |v|
  {
    if v != [] {
      SortLength(v[1..]);
      InsertLength(v[0], SortDescending(v[1..]));
    }
  }

  lemma {:induction false} InsertLength(r: Request, v: seq<Request>)
    ensures |InsertDescending(r, v)| == |v| + 1
  {
    if v != [] && r.id <= v[0].id {
      InsertLength(r, v[1..]);
    }
  }

  lemma {:induction false} PutAllPreLosesNothing(s: State, v: seq<Request>)
    requires |s.queue| + |v| <= QUEUE_CAPACITY
    ensures PutAllPre(s, v).lost == s.lost
    decreases |v|
  {
    if v != [] {
      PutAllPreLosesNothing(PutPre(s, v[0]), v[1..]);
    }
  }

  lemma {:induction false} CheckLosesNothing(s: State, order: seq<nat>, now: nat)
    requires |s.responses| + |s.pending| <= RESPONSE_CAPACITY
    ensures Check(s, order, now).lost == s.lost
    decreases |order|
  {
    if order != [] {
      var k := order[0];
      if k in s.pending {
        assert s.pending.Keys == (s.pending - {k}).Keys + {k};
      }
      CheckLosesNothing(CheckEntry(s, k, now), order[1..], now);
    }
  }

  lemma RoomLosesNothing(s: State, e: Event)
    requires Enabled(s, e) && HasRoom(s, e)
    ensures Next(s, e).lost == s.lost
  {
    match e
    case Tick(order, now) => CheckLosesNothing(s, order, now);
    case Reconnected(order, now, h) =>
      var v := Stamped(s.pending, order, now);
      WalkLength(order, s.pending);
      StampedLength(s.pending, order, now);
      SortLength(v);
      var s0 := Reset(s).(up := true);
      PutAllPreLosesNothing(s0.(pending := map[]), SortDescending(v));
    case _ =>
  }

  ghost predicate AlwaysRoom(s: State, es: seq<Event>)
    requires Runs(s, es)
    decreases |es|
  {
    es == [] || (HasRoom(s, es[0]) && AlwaysRoom(Next(s, es[0]), es[1..]))
  }

  lemma {:induction false} NothingLost(s: State, es: seq<Event>)
    requires Runs(s, es) && AlwaysRoom(s, es)
    ensures End(s, es).lost == s.lost
    decreases |es|
  {
    hide HasRoom, Next;
    if es != [] {
      RoomLosesNothing(s, es[0]);
      NothingLost(Next(s, es[0]), es[1..]);
    }
  }

  /** If neither bounded queue ever overflows, every accepted request that wants a callback
      is queued, awaiting its response, or completed: one of the three, once. */
  lemma ThreePlacesInAnyRun(s: State, es: seq<Event>, x: nat)
    requires Init(s) && Runs(s, es) && AlwaysFresh(s, es) && AlwaysRoom(s, es)
    ensures var t := End(s, es);
            x in CbIds(t.accepted) ==> CbIds(t.queue)[x] + PendingIds(t.pending)[x] + CompletedIds(t.completed)[x] == 1
  {
    ConservationInAnyRun(s, es);
    NothingLost(s, es);
  }
}
