/** How far a write gets: how many bytes of which request leave, and when a request is done. */
module WriteProgress {
  import opened Basics
  import opened Connection
  import opened OutputStream
  import opened RingConnection
  import Ring

  /** What a socket that takes n bytes takes of a request with `left` bytes to go; n <= 0 is
      an error. */
  function Accepted(n: int, left: int): nat {
    if n <= 0 || left <= 0 then 0 else Least(n, left)
  }

  /** What is left of the request being sent. */
  function Unsent(s: State): seq<Octet>
    requires s.sending.Some?
  {
    var d := s.sending.value.data;
    if s.sendPos <= |d| then d[s.sendPos..] else []
  }

  /** Position and stream advance by exactly what was accepted, the bytes are the next ones of
      the request, and it stops being sent exactly with its last byte. */
  predicate Advances(s: State, t: State, n: int)
    requires s.sending.Some?
  {
    var left := Unsent(s);
    var k := Accepted(n, |left|);
    && t.sendPos == s.sendPos + k && t.wire == s.wire + left[..k]
    && (t.sending.None? <==> 0 < k == |left|)
    && (if t.sending.None? then t.finished == s.finished + [s.sending.value]
        else t.sending == s.sending && t.finished == s.finished)
    && t == s.(sendPos := t.sendPos, wire := t.wire, sending := t.sending, finished := t.finished)
  }

  lemma WriteSomeMoves(s: State, n: int)
    requires s.sending.Some?
    ensures Advances(s, WriteSome(s, n), n)
  {
    var k := Accepted(n, |Unsent(s)|);
    if k > 0 {
      assert s.sending.value.data[s.sendPos..s.sendPos + k] == Unsent(s)[..k];
    } else {
      assert s.wire + [] == s.wire;
    }
  }

  // ---------- any sequence of writes ----------

  /** The bytes still to go, request by request. */
  function Backlog(s: State): seq<seq<Octet>> {
    (if s.sending.Some? then [Unsent(s)] else []) + Datas(s.queue)
  }

  function Datas(q: seq<Request>): seq<seq<Octet>> {
    seq(|q|, i requires 0 <= i < |q| => q[i].data)
  }

  function Concat(b: seq<seq<Octet>>): seq<Octet> {
    if b == [] then [] else b[0] + Concat(b[1..])
  }

  /** A write of n bytes takes them from the first request of the backlog and from no other;
      the request goes when nothing is left of it. */
  function AfterWrite(b: seq<seq<Octet>>, n: int): seq<seq<Octet>> {
    if b == [] then [] else
    var k := Accepted(n, |b[0]|);
    if 0 < k == |b[0]| then b[1..] else [b[0][k..]] + b[1..]
  }

  /** Bytes written: the sum of what the writes accept, each capped by the request then sent. */
  function Written(b: seq<seq<Octet>>, ns: seq<int>): nat
    decreases |ns|
  {
    if ns == [] || b == [] then 0 else Accepted(ns[0], |b[0]|) + Written(AfterWrite(b, ns[0]), ns[1..])
  }

  function Writes(s: State, ns: seq<int>): State
    decreases |ns|
  {
    if ns == [] then s else Writes(Write(s, ns[0]), ns[1..])
  }

  lemma GetNextBacklog(s: State)
    ensures var t := GetNext(s);
            && Backlog(t) == Backlog(s) && t.wire == s.wire
            && (t.sending.None? ==> Backlog(s) == [])
  {
    if s.sending.None? && s.queue != [] {
      assert Datas(s.queue) == [s.queue[0].data] + Datas(s.queue[1..]);
    }
  }

  lemma WriteSomeBacklog(s: State, n: int)
    requires s.sending.Some?
    ensures var t, b := WriteSome(s, n), Backlog(s);
            Backlog(t) == AfterWrite(b, n) && t.wire == s.wire + b[0][..Accepted(n, |b[0]|)]
  {
    WriteSomeMoves(s, n);
    hide WriteSome, Datas;
    var first, rest := Unsent(s), Datas(s.queue);
    assert Backlog(s) == [first] + rest && ([first] + rest)[1..] == rest;
    var t := WriteSome(s, n);
    assert t.sending.Some? ==> Unsent(t) == first[Accepted(n, |first|)..];
  }

  lemma NoBytes()
    ensures Concat([]) == []
  {}

  lemma CutFirst(x: seq<Octet>, y: seq<Octet>, k: nat)
    requires k <= |x|
    ensures (x + y)[..k] == x[..k] && (x + y)[k..] == x[k..] + y
  {}

  lemma ConcatAfter(b: seq<seq<Octet>>, n: int)
    requires b != []
    ensures var k := Accepted(n, |b[0]|);
            k <= |Concat(b)| && b[0][..k] == Concat(b)[..k] && Concat(AfterWrite(b, n)) == Concat(b)[k..]
  {
    var first, rest := b[0], b[1..];
    var k := Accepted(n, |first|);
    CutFirst(first, Concat(rest), k);
    if 0 < k == |first| {
      assert first[k..] + Concat(rest) == Concat(rest);
    } else {
      assert ([first[k..]] + rest)[1..] == rest;
    }
  }

  lemma CutTwice(wire: seq<Octet>, all: seq<Octet>, j: nat, k: nat)
    requires j <= |all| && k <= |all[j..]|
    ensures (wire + all[..j]) + all[j..][..k] == wire + all[..j + k] && all[j..][k..] == all[j + k..]
  {
    assert all[..j + k] == all[..j] + all[j..][..k];
  }

  lemma {:induction false} NothingToWrite(s: State, ns: seq<int>)
    requires Backlog(s) == []
    ensures Writes(s, ns) == s
    decreases |ns|
  {
    if ns != [] {
      assert s.sending.None? && |s.queue| == |Datas(s.queue)| == 0;
      NothingToWrite(s, ns[1..]);
    }
  }

  /** Whatever sizes the socket accepts: the stream grows by exactly the next Written bytes of
      the backlog, in order, none left out and none twice, and the rest stays to be written. */
  lemma {:induction false} WritesPour(s: State, ns: seq<int>)
    ensures var t, all, k := Writes(s, ns), Concat(Backlog(s)), Written(Backlog(s), ns);
            && k <= |all| && t.wire == s.wire + all[..k]
            && Concat(Backlog(t)) == all[k..]
    decreases |ns|
  {
    hide Backlog, AfterWrite, GetNext, WriteSome, Concat, Accepted;
    var b := Backlog(s);
    if b == [] {
      NothingToWrite(s, ns);
      assert Concat([]) == [] by { NoBytes(); }
    } else if ns != [] {
      var n, u := ns[0], Write(s, ns[0]);
      GetNextBacklog(s);
      WriteSomeBacklog(GetNext(s), n);
      ConcatAfter(b, n);
      WritesPour(u, ns[1..]);
      CutTwice(s.wire, Concat(b), Accepted(n, |b[0]|), Written(AfterWrite(b, n), ns[1..]));
    } else {
      assert s.wire + [] == s.wire;
    }
  }

  // ---------- over the ring ----------

  /** Writing takes from the front, where a ring is a sequence in every state. */
  lemma RingWriteIsWrite(r: RingState, n: int)
    ensures Abs(RingWrite(r, n)) == Write(Abs(r), n)
  {
    if r.ring.nowNum > 0 { Ring.TakeFrontRefines(r.ring); }
    assert |Ring.Live(r.ring)| == r.ring.nowNum;
    hide Ring.Live, Ring.Rem, Ring.TakeFront;
    assert Abs(RingGetNext(r)) == GetNext(Abs(r));
    WriteSomeIgnoresQueue(RingGetNext(r).rest, GetNext(Abs(r)).queue, n);
  }

  ghost function RingWrites(r: RingState, ns: seq<int>): (t: RingState)
    decreases |ns|
  {
    if ns == [] then r else RingWrites(RingWrite(r, ns[0]), ns[1..])
  }

  lemma {:induction false} RingWritesAreWrites(r: RingState, ns: seq<int>)
    ensures Abs(RingWrites(r, ns)) == Writes(Abs(r), ns)
    decreases |ns|
  {
    if ns != [] {
      RingWriteIsWrite(r, ns[0]);
      RingWritesAreWrites(RingWrite(r, ns[0]), ns[1..]);
    }
  }

  /** The same of the connection with the ring, safe window or not. */
  lemma RingWritesPour(r: RingState, ns: seq<int>)
    ensures var b := Backlog(Abs(r));
            var t, k := RingWrites(r, ns).rest, Written(b, ns);
            k <= |Concat(b)| && t.wire == r.rest.wire + Concat(b)[..k]
  {
    RingWritesAreWrites(r, ns);
    WritesPour(Abs(r), ns);
    hide Backlog, Writes, RingWrites, Written, Concat;
  }

  /** What is left of the request the next write is about. */
  ghost function LeftNow(r: RingState): int {
    if r.rest.sending.Some? then |Unsent(r.rest)|
    else if r.ring.nowNum > 0 then |Ring.Live(r.ring)[0].data| else 0
  }

  /** The bytes accepted since the connection was last lost or made, from `sofar` on. */
  ghost function TotalAccepted(r: RingState, es: seq<Event>, sofar: nat): nat
    requires RingRuns(r, es)
    decreases |es|
  {
    if es == [] then sofar else
    var total := if es[0].CanWrite? then sofar + Accepted(es[0].n, LeftNow(r))
                 else if es[0].Disconnected? || es[0].Reconnected? then 0
                 else sofar;
    TotalAccepted(RingNext(r, es[0]), es[1..], total)
  }

  lemma OneWriteOverRing(r: RingState, n: int)
    ensures |RingWrite(r, n).rest.wire| == |r.rest.wire| + Accepted(n, LeftNow(r))
  {
    if r.ring.nowNum > 0 { Ring.TakeFrontRefines(r.ring); }
    var u := RingGetNext(r).rest;
    assert u.wire == r.rest.wire;
    if u.sending.Some? {
      assert LeftNow(r) == |Unsent(u)|;
      WriteSomeMoves(u, n);
    }
  }

  lemma OtherStepsWriteNothing(r: RingState, e: Event)
    requires Enabled(r.rest, e)
    requires !e.CanWrite? && !e.Disconnected? && !e.Reconnected?
    ensures RingNext(r, e).rest.wire == r.rest.wire
  {
    if e.Tick? { CheckSameWire(r.rest, e.order, e.now); }
  }

  lemma NewConnectionWritesNothing(r: RingState, e: Event)
    requires Enabled(r.rest, e) && (e.Disconnected? || e.Reconnected?)
    ensures RingNext(r, e).rest.wire == []
  {
    if e.Reconnected? {
      RingResendStartsWire(r, e.order, e.now, e.handshake);
    }
  }

  /** In every run, whatever happens between the writes: the length of the stream is the sum of
      what the writes of the connection accepted. */
  lemma {:induction false} RunWrites(r: RingState, es: seq<Event>)
    requires RingRuns(r, es)
    ensures |RingEnd(r, es).rest.wire| == TotalAccepted(r, es, |r.rest.wire|)
    decreases |es|
  {
    if es != [] {
      var e := es[0];
      if e.CanWrite? {
        OneWriteOverRing(r, e.n);
      } else if e.Disconnected? || e.Reconnected? {
        NewConnectionWritesNothing(r, e);
      } else {
        OtherStepsWriteNothing(r, e);
      }
      hide LeftNow, Accepted, Enabled;
      RunWrites(RingNext(r, e), es[1..]);
    }
  }
}
