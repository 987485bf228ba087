/** Which requests NetLoopCheck of src/gorm_client_event.cc fails, and which it leaves. */
module TimeoutScan {
  import opened Basics
  import opened Connection
  import opened ResendOrder
  import opened ResponseList

  /** A request awaits a response under k and has done so for at most three seconds, by a
      64-bit clock that wraps around. */
  predicate InTime(m: map<nat, Option<Request>>, k: nat, now: nat) {
    AwaitsResponse(m, k) && (now - m[k].value.tms) % 0x1_0000_0000_0000_0000 <= 3000
  }

  /** While the clock runs forward that is the plain comparison; a request stamped by a clock
      that has since been set back has never waited a short time, unless by almost 2^64. */
  lemma InTimeByTheClock(m: map<nat, Option<Request>>, k: nat, now: nat)
    requires AwaitsResponse(m, k) && now < 0x1_0000_0000_0000_0000 && m[k].value.tms < 0x1_0000_0000_0000_0000
    ensures m[k].value.tms <= now ==> (InTime(m, k, now) <==> now <= m[k].value.tms + 3000)
    ensures m[k].value.tms > now ==>
              (InTime(m, k, now) <==> m[k].value.tms >= now + (0x1_0000_0000_0000_0000 - 3000))
  {
    var d := now - m[k].value.tms;
    if d < 0 { Divides(d, -1, TWO64, d + TWO64); } else { Divides(d, 0, TWO64, d); }
  }

  /** The requests that have waited longer, in walking order. */
  function Overdue(m: map<nat, Option<Request>>, order: seq<nat>, now: nat): seq<Request> {
    if order == [] then []
    else (if AwaitsResponse(m, order[0]) && !InTime(m, order[0], now) then [m[order[0]].value] else [])
         + Overdue(m, order[1..], now)
  }

  function Failures(v: seq<Request>): seq<Completion> {
    seq(|v|, i requires 0 <= i < |v| => Completion(v[i], TimedOut))
  }

  lemma NoFailure()
    ensures Failures([]) == []
  {}

  lemma FirstFailure(r: Request, v: seq<Request>)
    ensures Failures([r] + v) == [Completion(r, TimedOut)] + Failures(v)
  {}

  ghost predicate Distinct(order: seq<nat>) {
    forall i, j :: 0 <= i < j < |order| ==> order[i] != order[j]
  }

  lemma DistinctRest(order: seq<nat>)
    requires Distinct(order) && order != []
    ensures Distinct(order[1..]) && order[0] !in order[1..]
  {}

  lemma {:induction false} OverdueSame(m: map<nat, Option<Request>>, m': map<nat, Option<Request>>, order: seq<nat>,
                                       now: nat)
    requires forall k :: k in order ==> (k in m <==> k in m') && (k in m ==> m[k] == m'[k])
    ensures Overdue(m, order, now) == Overdue(m', order, now)
    decreases |order|
  {
    if order != [] {
      assert order[0] in order;
      assert InTime(m, order[0], now) == InTime(m', order[0], now);
      hide InTime;
      OverdueSame(m, m', order[1..], now);
    }
  }

  /** What one turn of the loop does to the map. */
  lemma EntryLeaves(s: State, k: nat, now: nat)
    ensures var t := CheckEntry(s, k, now);
            && (k in t.pending <==> InTime(s.pending, k, now))
            && (k in t.pending ==> t.pending[k] == s.pending[k])
            && (forall j :: j != k ==> (j in t.pending <==> j in s.pending)
                                       && (j in t.pending ==> t.pending[j] == s.pending[j]))
  {}

  lemma {:induction false} ScanLeaves(s: State, order: seq<nat>, now: nat)
    requires Distinct(order)
    ensures var t := Check(s, order, now);
            forall k: nat :: (k in t.pending <==> if k in order then InTime(s.pending, k, now) else k in s.pending)
                             && (k in t.pending ==> t.pending[k] == s.pending[k])
    decreases |order|
  {
    if order != [] {
      DistinctRest(order);
      EntryLeaves(s, order[0], now);
      ScanLeaves(CheckEntry(s, order[0], now), order[1..], now);
      hide CheckEntry, Distinct;
      assert forall k :: k in order <==> k == order[0] || k in order[1..];
    }
  }

  /** What one turn does to all the rest. */
  lemma EntryFails(s: State, k: nat, now: nat)
    ensures var t := CheckEntry(s, k, now);
            t == (if AwaitsResponse(s.pending, k) && !InTime(s.pending, k, now)
                  then Complete(s, s.pending[k].value, TimedOut) else s).(pending := t.pending)
  {}

  lemma {:induction false} ScanFails(s: State, order: seq<nat>, now: nat)
    requires Distinct(order)
    ensures var t := Check(s, order, now);
            t == PutAll(s, Failures(Overdue(s.pending, order, now))).(pending := t.pending)
    decreases |order|
  {
    hide CheckEntry, Distinct, Complete, InTime, PutAll, Failures;
    if order == [] {
      assert Failures([]) == [] by { NoFailure(); }
      PutNone(s);
    } else {
      var k, rest := order[0], order[1..];
      var s1 := CheckEntry(s, k, now);
      DistinctRest(order);
      EntryLeaves(s, k, now);
      EntryFails(s, k, now);
      ScanFails(s1, rest, now);
      OverdueSame(s1.pending, s.pending, rest, now);
      var v := Overdue(s.pending, rest, now);
      if AwaitsResponse(s.pending, k) && !InTime(s.pending, k, now) {
        var r := s.pending[k].value;
        FirstFailure(r, v);
        PutElsewhere(Complete(s, r, TimedOut), s1.pending, s1.status, Failures(v));
        PutFirst(s, r, TimedOut, Failures(v));
      } else {
        PutElsewhere(s, s1.pending, s.status, Failures(v));
        assert Overdue(s.pending, order, now) == v;
      }
    }
  }

  /** A request is left, as it was, exactly if it has waited at most 3000 ms, and no null entry
      is left.  All others are put on the response list as timed out in walking order, the last
      ones lost if it has no room, and nothing else changes. */
  ghost predicate Scanned(s: State, t: State, order: seq<nat>, now: nat) {
    && (forall k: nat :: (k in t.pending <==> InTime(s.pending, k, now))
                         && (k in t.pending ==> t.pending[k] == s.pending[k]))
    && t == PutAll(s, Failures(Overdue(s.pending, order, now))).(pending := t.pending)
  }

  /** The scan of the whole map, whatever the order. */
  lemma ScanDecides(s: State, order: seq<nat>, now: nat)
    requires WalksMap(order, s.pending)
    ensures Scanned(s, Check(s, order, now), order, now)
  {
    hide Check, PutAll, Overdue;
    ScanLeaves(s, order, now);
    ScanFails(s, order, now);
  }

  /** With room nothing is lost, and both lists grow by exactly these. */
  lemma ScanWithRoom(s: State, order: seq<nat>, now: nat)
    requires WalksMap(order, s.pending) && |Overdue(s.pending, order, now)| <= Room(s)
    ensures var t, v := Check(s, order, now), Overdue(s.pending, order, now);
            && t.completed == s.completed + seq(|v|, i requires 0 <= i < |v| => Completion(v[i], TimedOut))
            && t.responses == s.responses + seq(|v|, i requires 0 <= i < |v| => Completion(v[i], TimedOut))
            && t.lost == s.lost
  {
    ScanDecides(s, order, now);
    PutWithRoom(s, Failures(Overdue(s.pending, order, now)));
    hide Check, Overdue, PutAll;
  }
}
