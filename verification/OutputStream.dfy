/** What is on the wire of the current connection, under any sequence of partial writes. */
module OutputStream {
  import opened Basics
  import opened Connection

  function Flat(rs: seq<Request>): seq<Octet> {
    if rs == [] then [] else rs[0].data + Flat(rs[1..])
  }

  lemma {:induction false} FlatLast(rs: seq<Request>, r: Request)
    ensures Flat(rs + [r]) == Flat(rs) + r.data
  {
    if rs == [] {
      assert rs + [r] == [r] && [r][1..] == [];
    } else {
      assert (rs + [r])[1..] == rs[1..] + [r];
      FlatLast(rs[1..], r);
    }
  }

  function BeingSent(s: State): seq<Request> {
    if s.sending.Some? then [s.sending.value] else []
  }

  function SentPart(s: State): seq<Octet> {
    if s.sending.Some? && s.sendPos <= |s.sending.value.data| then s.sending.value.data[..s.sendPos] else []
  }

  /** The bytes written are complete requests in the order they were taken from the queue,
      then the written prefix of the request being sent. */
  ghost predicate WireInv(s: State) {
    && (s.sending.Some? ==> s.sendPos <= |s.sending.value.data|)
    && s.taken == s.finished + BeingSent(s)
    && s.wire == Flat(s.finished) + SentPart(s)
  }

  /** Writing len more bytes of the request being sent. */
  lemma BytesKeepWire(s: State, len: nat)
    requires WireInv(s) && s.sending.Some? && s.sendPos + len <= |s.sending.value.data|
    ensures var data := s.sending.value.data[s.sendPos..s.sendPos + len];
            WireInv(s.(sendPos := s.sendPos + len, wire := s.wire + data))
  {
    hide Flat;
    var r, pos := s.sending.value, s.sendPos + len;
    assert r.data[..s.sendPos] + r.data[s.sendPos..pos] == r.data[..pos];
    assert s.wire + r.data[s.sendPos..pos] == Flat(s.finished) + r.data[..pos];
  }

  /** The request being sent is completely written. */
  lemma FinishKeepsWire(s: State)
    requires WireInv(s) && s.sending.Some? && s.sendPos == |s.sending.value.data|
    ensures WireInv(s.(sending := None, finished := s.finished + [s.sending.value]))
  {
    var r := s.sending.value;
    FlatLast(s.finished, r);
    hide Flat;
    assert r.data[..|r.data|] == r.data;
    assert Flat(s.finished + [r]) + [] == Flat(s.finished) + r.data;
    assert s.finished + [r] + [] == s.finished + [r];
  }

  /** A write of any size, failed, partial or final. */
  lemma WriteSomeKeepsWire(s: State, n: int)
    requires WireInv(s)
    ensures WireInv(WriteSome(s, n))
  {
    if s.sending.Some? && n > 0 && s.sendPos < |s.sending.value.data| {
      var r, left := s.sending.value, |s.sending.value.data| - s.sendPos;
      var len := if n <= left then n else left;
      var t := s.(sendPos := s.sendPos + len, wire := s.wire + r.data[s.sendPos..s.sendPos + len]);
      BytesKeepWire(s, len);
      hide WireInv;
      if len == left {
        FinishKeepsWire(t);
        assert WriteSome(s, n) == t.(sending := None, finished := t.finished + [r]);
      } else {
        assert WriteSome(s, n) == t;
      }
    }
  }

  lemma {:induction false} CheckSameWire(s: State, order: seq<nat>, now: nat)
    ensures SameWire(s, Check(s, order, now))
    decreases |order|
  {
    if order != [] {
      CheckSameWire(CheckEntry(s, order[0], now), order[1..], now);
    }
  }

  predicate SameWire(s: State, t: State) {
    && t.sending == s.sending && t.sendPos == s.sendPos
    && t.taken == s.taken && t.finished == s.finished && t.wire == s.wire
  }

  /** Steps that neither write nor start a new connection. */
  lemma OtherStepsKeepWire(s: State, e: Event)
    requires Enabled(s, e) && WireInv(s) && !e.Submit? && !e.CanWrite? && !e.Reconnected?
    ensures WireInv(Next(s, e))
  {
    match e
    case Tick(order, now) => CheckSameWire(s, order, now); SameWireKeeps(s, Check(s, order, now));
    case Disconnected => assert Flat([]) == [];
    case Frame(f) => SameWireKeeps(s, Receive(s, f));
    case _ =>
  }

  lemma SameWireKeeps(s: State, t: State)
    requires WireInv(s) && SameWire(s, t)
    ensures WireInv(t)
  {}

  lemma InitWire(s: State)
    requires Init(s)
    ensures WireInv(s)
  {
    assert s.finished + BeingSent(s) == [] && Flat(s.finished) + SentPart(s) == [];
  }
}
