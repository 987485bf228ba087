/** From the bytes a server sends to the requests that complete: encoding, framing, decoding
    and matching together. */
module EndToEnd {
  import opened Basics
  import Wire
  import Framing
  import opened Connection
  import opened ResendOrder
  import opened ResponseList
  import Reader

  type Bytes = Framing.Bytes

  /** What the server means to send. */
  datatype Reply = Reply(cmd: Octet, id: nat, err: int, flag: Octet, body: Bytes)

  /** The ranges of the header fields, and of the whole frame. */
  predicate Sendable(r: Reply) {
    r.cmd < 128 && r.id < 0x100_0000 && -128 <= r.err < 128 && Wire.RSP_HEADER_LEN + |r.body| <= Wire.MAX_REQUEST_LEN
  }

  predicate AllSendable(rs: seq<Reply>) {
    forall i :: 0 <= i < |rs| ==> Sendable(rs[i])
  }

  function Encode(r: Reply): Bytes {
    Wire.RspHeader(Wire.RSP_HEADER_LEN + |r.body|, r.cmd, r.id, r.err, r.flag) + r.body
  }

  function EncodeAll(rs: seq<Reply>): seq<Bytes> {
    seq(|rs|, i requires 0 <= i < |rs| => Encode(rs[i]))
  }

  /** How OneRspFinishRead sees a frame. */
  function Decode(f: Bytes): Reply
    requires |f| >= Wire.RSP_HEADER_LEN && Wire.GetRspHeader(f).cmd >= 0
  {
    var h := Wire.GetRspHeader(f);
    Reply(h.cmd, h.id, h.err, h.flag, f[Wire.RSP_HEADER_LEN..])
  }

  predicate Decodable(f: Bytes) {
    |f| >= Wire.RSP_HEADER_LEN && Wire.GetRspHeader(f).cmd >= 0
  }

  function DecodeAll(frames: seq<Bytes>): seq<Reply>
    requires forall i :: 0 <= i < |frames| ==> Decodable(frames[i])
  {
    seq(|frames|, i requires 0 <= i < |frames| && Decodable(frames[i]) => Decode(frames[i]))
  }

  lemma DecodeEncode(r: Reply)
    requires Sendable(r)
    ensures Framing.Frame(Encode(r)) && Decodable(Encode(r)) && Decode(Encode(r)) == r
  {
    Wire.RspRoundTrip(Wire.RSP_HEADER_LEN + |r.body|, r.cmd, r.id, r.err, r.flag, r.body);
    hide Wire.GetMsgLen, Wire.RspHeader, Wire.GetRspHeader;
  }

  lemma DecodeEncodeAll(rs: seq<Reply>)
    requires AllSendable(rs)
    ensures Framing.AllFrames(EncodeAll(rs))
    ensures forall i :: 0 <= i < |rs| ==> Decodable(EncodeAll(rs)[i])
    ensures DecodeAll(EncodeAll(rs)) == rs
  {
    forall i | 0 <= i < |rs|
      ensures Framing.Frame(Encode(rs[i])) && Decodable(Encode(rs[i])) && Decode(Encode(rs[i])) == rs[i]
    {
      DecodeEncode(rs[i]);
    }
    hide Encode, Decode, Decodable, Framing.Frame;
  }

  /** Whatever the sizes of the recv calls, the reader recovers command, id, error, flag and
      body of every reply, in order; a part of one more stays buffered. */
  lemma ReaderRecoversReplies(reader: Reader.Reader, rs: seq<Reply>, tail: Bytes)
    requires reader.Valid() && reader.received == Framing.Flat(EncodeAll(rs)) + tail
    requires AllSendable(rs) && !Framing.HasFrame(tail)
    ensures reader.dispatched == EncodeAll(rs) && reader.Buffered() == tail
    ensures forall i :: 0 <= i < |rs| ==> Decodable(reader.dispatched[i])
    ensures DecodeAll(reader.dispatched) == rs
  {
    DecodeEncodeAll(rs);
    reader.ExactlyTheFrames(EncodeAll(rs), tail);
  }

  // ---------- matching ----------

  function ToResponse(r: Reply): Response {
    Response(r.cmd, r.id, r.err, r.body)
  }

  function ReceiveAll(s: State, rs: seq<Reply>): State
    decreases |rs|
  {
    if rs == [] then s else Receive(ReceiveAll(s, rs[..|rs| - 1]), ToResponse(rs[|rs| - 1]))
  }

  predicate AnsweredIn(rs: seq<Reply>, n: nat, k: nat)
    requires n <= |rs|
  {
    exists j :: 0 <= j < n && rs[j].id == k
  }

  /** The completions the first n replies cause: one for each reply that is the first with its
      id, if a request with that id awaits a response. */
  function Completions(m: map<nat, Option<Request>>, rs: seq<Reply>, n: nat): seq<Completion>
    requires n <= |rs|
  {
    if n == 0 then [] else
    var r := rs[n - 1];
    Completions(m, rs, n - 1) +
    (if AwaitsResponse(m, r.id) && !AnsweredIn(rs, n - 1, r.id)
     then [Completion(m[r.id].value, if r.err != 0 then Failed(r.err) else Answered(r.cmd, r.body))] else [])
  }

  /** Reply j awaits nothing when it arrives: no request has its id, or an earlier reply took it. */
  predicate Unmatched(m: map<nat, Option<Request>>, rs: seq<Reply>, j: nat)
    requires j < |rs|
  {
    !AwaitsResponse(m, rs[j].id) || AnsweredIn(rs, j, rs[j].id)
  }

  /** The last of the first n replies that has command 2 and awaits nothing is the handshake's;
      without one the status is what it was. */
  ghost predicate StatusMatches(s: State, status: StartStatus, rs: seq<Reply>, n: nat)
    requires n <= |rs|
  {
    || ((forall i: nat :: i < n && rs[i].cmd == 2 ==> !Unmatched(s.pending, rs, i)) && status == s.status)
    || (exists j: nat ::
          && j < n && rs[j].cmd == 2 && Unmatched(s.pending, rs, j)
          && (forall i: nat :: j < i < n && rs[i].cmd == 2 ==> !Unmatched(s.pending, rs, i))
          && status == if rs[j].err == 0 then Started else VersionFailed)
  }

  /** Replies that await nothing leave null entries, and no others appear. */
  ghost predicate NullsLeft(m: map<nat, Option<Request>>, m': map<nat, Option<Request>>, rs: seq<Reply>, n: nat)
    requires n <= |rs|
  {
    forall k: nat :: (k in m' && m'[k].None?) <==>
        (k in m && m[k].None?) || exists j: nat :: j < n && rs[j].id == k && Unmatched(m, rs, j)
  }

  /** m' holds the requests of m that none of the first n replies answers. */
  ghost predicate StillAwaited(m: map<nat, Option<Request>>, m': map<nat, Option<Request>>, rs: seq<Reply>, n: nat)
    requires n <= |rs|
  {
    forall k: nat :: (AwaitsResponse(m', k) <==> AwaitsResponse(m, k) && !AnsweredIn(rs, n, k))
                     && (AwaitsResponse(m', k) ==> m'[k] == m[k])
  }

  /** The state after the first n replies. */
  ghost predicate Matches(s: State, t: State, rs: seq<Reply>, n: nat)
    requires n <= |rs|
  {
    && StillAwaited(s.pending, t.pending, rs, n)
    && NullsLeft(s.pending, t.pending, rs, n)
    && StatusMatches(s, t.status, rs, n)
    && t == PutAll(s, Completions(s.pending, rs, n)).(pending := t.pending, status := t.status)
  }

  lemma OneMore(rs: seq<Reply>, n: nat, k: nat)
    requires n < |rs|
    ensures AnsweredIn(rs, n + 1, k) <==> AnsweredIn(rs, n, k) || rs[n].id == k
  {}

  lemma NextStillAwaited(m: map<nat, Option<Request>>, m': map<nat, Option<Request>>, rs: seq<Reply>, n: nat)
    requires n < |rs| && StillAwaited(m, m', rs, n)
    ensures StillAwaited(m, m' - {rs[n].id}, rs, n + 1)
    ensures !AwaitsResponse(m', rs[n].id) ==> StillAwaited(m, m'[rs[n].id := None], rs, n + 1)
  {
    forall k: nat ensures AnsweredIn(rs, n + 1, k) <==> AnsweredIn(rs, n, k) || rs[n].id == k { OneMore(rs, n, k); }
    hide AnsweredIn;
  }

  lemma NextNullsLeft(m: map<nat, Option<Request>>, m': map<nat, Option<Request>>, rs: seq<Reply>, n: nat)
    requires n < |rs| && NullsLeft(m, m', rs, n)
    ensures !Unmatched(m, rs, n) && AwaitsResponse(m', rs[n].id) ==> NullsLeft(m, m' - {rs[n].id}, rs, n + 1)
    ensures Unmatched(m, rs, n) ==> NullsLeft(m, m'[rs[n].id := None], rs, n + 1)
  {
    hide Unmatched;
  }

  lemma NextStatus(s: State, status: StartStatus, rs: seq<Reply>, n: nat)
    requires n < |rs| && StatusMatches(s, status, rs, n)
    ensures !Unmatched(s.pending, rs, n) || rs[n].cmd != 2 ==> StatusMatches(s, status, rs, n + 1)
    ensures Unmatched(s.pending, rs, n) && rs[n].cmd == 2 ==>
              StatusMatches(s, if rs[n].err == 0 then Started else VersionFailed, rs, n + 1)
  {
    hide Unmatched;
  }

  /** One reply, as far as the response list is concerned. */
  lemma ReceivePuts(s: State, t: State, m: map<nat, Option<Request>>, status: StartStatus, cs: seq<Completion>,
                    f: Response)
    requires t == PutAll(s, cs).(pending := m, status := status)
    ensures var u := Receive(t, f);
            u == PutAll(s, if AwaitsResponse(m, f.id)
                           then cs + [Completion(m[f.id].value,
                                                 if f.err != 0 then Failed(f.err) else Answered(f.cmd, f.body))]
                           else cs).(pending := u.pending, status := u.status)
            && u.pending == (if AwaitsResponse(m, f.id) then m - {f.id} else m[f.id := None])
            && u.status == if AwaitsResponse(m, f.id) || f.cmd != 2 then status
                           else if f.err == 0 then Started else VersionFailed
  {
    if AwaitsResponse(m, f.id) {
      var r := m[f.id].value;
      var result := if f.err != 0 then Failed(f.err) else Answered(f.cmd, f.body);
      PutLast(s, cs, r, result);
      CompleteElsewhere(PutAll(s, cs), m - {f.id}, status, r, result);
    }
    hide PutAll, Complete;
  }

  lemma ReceiveMatches(s: State, t: State, rs: seq<Reply>, n: nat)
    requires n < |rs| && Matches(s, t, rs, n)
    ensures Matches(s, Receive(t, ToResponse(rs[n])), rs, n + 1)
  {
    hide AnsweredIn, PutAll, Receive;
    var r := rs[n];
    NextStillAwaited(s.pending, t.pending, rs, n);
    NextNullsLeft(s.pending, t.pending, rs, n);
    NextStatus(s, t.status, rs, n);
    ReceivePuts(s, t, t.pending, t.status, Completions(s.pending, rs, n), ToResponse(r));
    assert AwaitsResponse(t.pending, r.id) <==> AwaitsResponse(s.pending, r.id) && !AnsweredIn(rs, n, r.id);
    assert AwaitsResponse(t.pending, r.id) ==> t.pending[r.id] == s.pending[r.id];
    hide StillAwaited, NullsLeft, StatusMatches;
    var before, after := Completions(s.pending, rs, n), Completions(s.pending, rs, n + 1);
    assert !AwaitsResponse(t.pending, r.id) ==> after == before + [] == before;
  }

  /** What any list of replies does, whatever was pending and whether or not there is room. */
  lemma {:induction false} AllMatch(s: State, rs: seq<Reply>, n: nat)
    requires n <= |rs|
    ensures Matches(s, ReceiveAll(s, rs[..n]), rs, n)
    decreases n
  {
    if n > 0 {
      AllMatch(s, rs, n - 1);
      assert rs[..n][..n - 1] == rs[..n - 1];
      ReceiveMatches(s, ReceiveAll(s, rs[..n - 1]), rs, n - 1);
    } else {
      PutNone(s);
    }
  }

  /** Server to completion list: the requests completed by a stream of replies, however it is
      cut, are those awaiting an id that occurs, each once, by the first reply with that id,
      in the order of these replies, as long as the response list has room; every other request
      keeps waiting, the last handshake reply sets the status, and nothing else moves. */
  lemma StreamCompletesExactly(reader: Reader.Reader, s: State, rs: seq<Reply>, tail: Bytes)
    requires reader.Valid() && reader.received == Framing.Flat(EncodeAll(rs)) + tail
    requires AllSendable(rs) && !Framing.HasFrame(tail)
    ensures forall i :: 0 <= i < |reader.dispatched| ==> Decodable(reader.dispatched[i])
    ensures var t := ReceiveAll(s, DecodeAll(reader.dispatched));
            && Matches(s, t, rs, |rs|)
            && (|Completions(s.pending, rs, |rs|)| <= Room(s) ==>
                  t.completed == s.completed + Completions(s.pending, rs, |rs|) && t.lost == s.lost)
  {
    ReaderRecoversReplies(reader, rs, tail);
    AllMatch(s, rs, |rs|);
    if |Completions(s.pending, rs, |rs|)| <= Room(s) { PutWithRoom(s, Completions(s.pending, rs, |rs|)); }
    hide PutAll, ReceiveAll, Completions, StillAwaited, NullsLeft, StatusMatches;
    assert rs[..|rs|] == rs;
  }

  /** These are the frame events of a run. */
  function Events(rs: seq<Reply>): seq<Event> {
    if rs == [] then [] else Events(rs[..|rs| - 1]) + [Frame(ToResponse(rs[|rs| - 1]))]
  }

  lemma {:induction false} RunAppend(s: State, es: seq<Event>, f: Response)
    requires Runs(s, es) && End(s, es).up
    ensures Runs(s, es + [Frame(f)]) && End(s, es + [Frame(f)]) == Receive(End(s, es), f)
    decreases |es|
  {
    if es == [] {
      assert es + [Frame(f)] == [Frame(f)] && [Frame(f)][1..] == [];
    } else {
      RunAppend(Next(s, es[0]), es[1..], f);
      assert (es + [Frame(f)])[1..] == es[1..] + [Frame(f)];
    }
  }

  lemma {:induction false} RunReceivesAll(s: State, rs: seq<Reply>)
    requires s.up
    ensures Runs(s, Events(rs)) && End(s, Events(rs)) == ReceiveAll(s, rs) && ReceiveAll(s, rs).up
    decreases |rs|
  {
    if rs != [] {
      RunReceivesAll(s, rs[..|rs| - 1]);
      RunAppend(s, Events(rs[..|rs| - 1]), ToResponse(rs[|rs| - 1]));
    }
  }
}
